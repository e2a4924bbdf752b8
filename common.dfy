/** Shared vocabulary of the model: optional values, HTTP-style outcomes and the
    handful of string operations (lower-casing, substring search, trimming,
    splitting, joining, decimal rendering) that the application code relies on. */
module Common {

  datatype Option<T> = None | Some(value: T)

  /** A value or an HTTP error raised by a backend handler (status code and detail). */
  datatype Outcome<T> = Ok(value: T) | HttpError(status: int, detail: string)

  /** `s.filter(p)` */
  function Filter<T>(s: seq<T>, p: T -> bool): (r: seq<T>)
    ensures |r| <= |s|
    ensures forall x :: x in r ==> x in s && p(x)
    ensures forall x :: x in s && p(x) ==> x in r
  {
    if s == [] then [] else (if p(s[0]) then [s[0]] else []) + Filter(s[1..], p)
  }

  lemma FilterAppend<T>(a: seq<T>, b: seq<T>, p: T -> bool)
    ensures Filter(a + b, p) == Filter(a, p) + Filter(b, p)
  {
    if a == [] {
      assert a + b == b;
    } else {
      assert (a + b)[1..] == a[1..] + b;
      FilterAppend(a[1..], b, p);
    }
  }

  /** Filtering keeps the relative order of the elements it keeps. */
  lemma {:induction false} FilterKeepsOrder<T>(s: seq<T>, p: T -> bool, i: nat, j: nat)
    requires i < j < |s| && p(s[i]) && p(s[j])
    ensures exists a, b :: 0 <= a < b < |Filter(s, p)| && Filter(s, p)[a] == s[i] && Filter(s, p)[b] == s[j]
  {
    var rest := Filter(s[1..], p);
    assert s[j] == s[1..][j - 1];
    if i == 0 {
      assert s[j] in rest;
      var b :| 0 <= b < |rest| && rest[b] == s[j];
      assert Filter(s, p) == [s[0]] + rest;
      assert Filter(s, p)[0] == s[0] && Filter(s, p)[b + 1] == s[j];
    } else {
      FilterKeepsOrder(s[1..], p, i - 1, j - 1);
      var a, b :| 0 <= a < b < |rest| && rest[a] == s[1..][i - 1] && rest[b] == s[1..][j - 1];
      if p(s[0]) {
        assert Filter(s, p)[a + 1] == s[i] && Filter(s, p)[b + 1] == s[j];
      } else {
        assert Filter(s, p) == rest;
      }
    }
  }

  /** A filter that rejects some element is strictly shorter than its input. */
  lemma {:induction false} FilterShorter<T>(s: seq<T>, p: T -> bool, i: nat)
    requires i < |s| && !p(s[i])
    ensures |Filter(s, p)| < |s|
  {
    if i > 0 {
      assert s[1..][i - 1] == s[i];
      FilterShorter(s[1..], p, i - 1);
    }
  }

  /** A filter that keeps everything gives its input back. */
  lemma {:induction false} FilterAll<T>(s: seq<T>, p: T -> bool)
    requires forall x :: x in s ==> p(x)
    ensures Filter(s, p) == s
  {
    if s != [] {
      assert forall x :: x in s[1..] ==> x in s;
      FilterAll(s[1..], p);
      assert s == [s[0]] + s[1..];
    }
  }

  /** A filter that keeps nothing gives the empty list. */
  lemma FilterNone<T>(s: seq<T>, p: T -> bool)
    requires forall x :: x in s ==> !p(x)
    ensures Filter(s, p) == []
  {
    if Filter(s, p) != [] {
      assert Filter(s, p)[0] in Filter(s, p);
    }
  }

  /** Number of elements of `s` that satisfy `p`. */
  function Count<T>(s: seq<T>, p: T -> bool): nat
  {
    if s == [] then 0 else (if p(s[0]) then 1 else 0) + Count(s[1..], p)
  }

  lemma FilterCount<T>(s: seq<T>, p: T -> bool)
    ensures |Filter(s, p)| == Count(s, p)
  {
    if s != [] { FilterCount(s[1..], p); }
  }

  function Min(a: int, b: int): int { if a <= b then a else b }

  // ---------------------------------------------------------------- characters

  /** `toLowerCase` / `lower()` restricted to ASCII letters. */
  function LowerChar(c: char): char
  {
    if 'A' <= c <= 'Z' then (c as int + 32) as char else c
  }

  function Lower(s: string): (r: string)
    ensures |r| == |s|
    ensures forall i :: 0 <= i < |s| ==> r[i] == LowerChar(s[i])
  {
    if s == [] then [] else [LowerChar(s[0])] + Lower(s[1..])
  }

  /** Whose notion of white space a trim follows: JavaScript's `String.prototype.trim`
      or Python's `str.strip()` with no argument. */
  datatype Runtime = JavaScript | Python

  /** The Unicode space and line separators both runtimes remove besides the ASCII ones
      and no-break space. */
  predicate IsUnicodeSeparator(c: char)
  {
    c == '\U{1680}' || ('\U{2000}' <= c <= '\U{200A}') || c == '\U{2028}' || c == '\U{2029}'
    || c == '\U{202F}' || c == '\U{205F}' || c == '\U{3000}'
  }

  /** The characters a trim removes: tab to carriage return, space, no-break space and the
      separators above for both; the byte-order mark only for JavaScript; the four
      information separators U+001C to U+001F and next-line U+0085 only for Python. */
  predicate IsSpace(rt: Runtime, c: char)
  {
    ('\t' <= c <= '\r') || c == ' ' || c == '\U{A0}' || IsUnicodeSeparator(c)
    || (if rt == JavaScript then c == '\U{FEFF}' else ('\U{1C}' <= c <= '\U{1F}') || c == '\U{85}')
  }

  predicate IsBlank(rt: Runtime, s: string)
  {
    forall i :: 0 <= i < |s| ==> IsSpace(rt, s[i])
  }

  /** Where the two runtimes disagree: an ideographic space is blank for both, an
      information separator only for Python and a byte-order mark only for JavaScript. */
  lemma BlankDiffers()
    ensures IsBlank(JavaScript, "\U{3000}") && IsBlank(Python, "\U{3000}")
    ensures IsBlank(Python, "\U{1F}") && !IsBlank(JavaScript, "\U{1F}")
    ensures IsBlank(JavaScript, "\U{FEFF}") && !IsBlank(Python, "\U{FEFF}")
  {
    assert "\U{1F}"[0] == '\U{1F}';
    assert "\U{FEFF}"[0] == '\U{FEFF}';
  }

  function TrimStart(rt: Runtime, s: string): (r: string)
    ensures |r| <= |s| && r == s[|s| - |r|..]
    ensures r != [] ==> !IsSpace(rt, r[0])
    ensures IsBlank(rt, s[..|s| - |r|])
  {
    if s != [] && IsSpace(rt, s[0]) then TrimStart(rt, s[1..]) else s
  }

  function TrimEnd(rt: Runtime, s: string): (r: string)
    ensures |r| <= |s| && r == s[..|r|]
    ensures r != [] ==> !IsSpace(rt, r[|r| - 1])
    ensures IsBlank(rt, s[|r|..])
  {
    if s != [] && IsSpace(rt, s[|s| - 1]) then TrimEnd(rt, s[..|s| - 1]) else s
  }

  /** `s.trim()` or `s.strip()` */
  function Trim(rt: Runtime, s: string): string
  {
    TrimEnd(rt, TrimStart(rt, s))
  }

  /** A string trims to nothing exactly when it is all white space. */
  lemma TrimEmptyIffBlank(rt: Runtime, s: string)
    ensures Trim(rt, s) == "" <==> IsBlank(rt, s)
  {
    var t := TrimStart(rt, s);
    if Trim(rt, s) == "" {
      assert IsBlank(rt, t[0..]);
      forall i | 0 <= i < |s| ensures IsSpace(rt, s[i]) {
        if i < |s| - |t| {
          assert s[i] == s[..|s| - |t|][i];
        } else {
          assert s[i] == t[i - (|s| - |t|)];
        }
      }
    } else {
      var r := Trim(rt, s);
      assert !IsSpace(rt, r[0]);
      assert r[0] == t[0];
      assert t[0] == s[|s| - |t|];
    }
  }

  /** `!s.trim()`: nothing is left once the white space is trimmed. */
  function TrimsToEmpty(s: string): (b: bool)
    ensures b <==> IsBlank(JavaScript, s)
  {
    TrimEmptyIffBlank(JavaScript, s);
    |Trim(JavaScript, s)| == 0
  }

  // ------------------------------------------------------------- substrings

  /** `hay.includes(needle)`: `needle` occurs as a contiguous piece of `hay`. */
  function Contains(hay: string, needle: string): bool
    decreases |hay|
  {
    if |needle| > |hay| then false
    else if hay[..|needle|] == needle then true
    else Contains(hay[1..], needle)
  }

  ghost predicate OccursAt(hay: string, needle: string, i: int)
  {
    0 <= i && i + |needle| <= |hay| && hay[i..i + |needle|] == needle
  }

  lemma {:induction false} ContainsIff(hay: string, needle: string)
    ensures Contains(hay, needle) <==> exists i :: OccursAt(hay, needle, i)
    decreases |hay|
  {
    if |needle| > |hay| {
    } else if hay[..|needle|] == needle {
      assert OccursAt(hay, needle, 0);
    } else {
      ContainsIff(hay[1..], needle);
      if Contains(hay[1..], needle) {
        var i :| OccursAt(hay[1..], needle, i);
        assert hay[i + 1..i + 1 + |needle|] == hay[1..][i..i + |needle|];
        assert OccursAt(hay, needle, i + 1);
      } else {
        forall i | 0 <= i ensures !OccursAt(hay, needle, i) {
          if i == 0 {
            assert hay[0..|needle|] == hay[..|needle|];
          } else if i + |needle| <= |hay| {
            assert hay[1..][i - 1..i - 1 + |needle|] == hay[i..i + |needle|];
            assert !OccursAt(hay[1..], needle, i - 1);
          }
        }
      }
    }
  }

  /** Every string contains the empty string (so an empty query matches everything). */
  lemma ContainsEmpty(hay: string)
    ensures Contains(hay, "")
  {
    assert hay[..0] == "";
  }

  // ------------------------------------------------------- split and join

  /** `parts.join(sep)` */
  function Join(parts: seq<string>, sep: string): string
  {
    if |parts| == 0 then ""
    else if |parts| == 1 then parts[0]
    else parts[0] + sep + Join(parts[1..], sep)
  }

  /** `s.split(sep)` for a one-character separator; never returns an empty list. */
  function Split(s: string, sep: char): (r: seq<string>)
    ensures |r| >= 1
  {
    if s == [] then [""]
    else
      var rest := Split(s[1..], sep);
      if s[0] == sep then [""] + rest else [[s[0]] + rest[0]] + rest[1..]
  }

  lemma {:induction false} SplitNoSep(a: string, sep: char)
    requires sep !in a
    ensures Split(a, sep) == [a]
  {
    if a != [] {
      SplitNoSep(a[1..], sep);
      assert [a[0]] + a[1..] == a;
    }
  }

  lemma {:induction false} SplitOverSep(a: string, b: string, sep: char)
    requires sep !in a
    ensures Split(a + [sep] + b, sep) == [a] + Split(b, sep)
  {
    if a == [] {
      assert a + [sep] + b == [sep] + b;
      assert ([sep] + b)[1..] == b;
    } else {
      assert (a + [sep] + b)[1..] == a[1..] + [sep] + b;
      SplitOverSep(a[1..], b, sep);
      assert [a[0]] + a[1..] == a;
    }
  }

  /** Three pieces without the separator, joined by it, split back into the pieces. */
  lemma SplitThree(a: string, b: string, c: string, sep: char)
    requires sep !in a && sep !in b && sep !in c
    ensures Split(a + [sep] + b + [sep] + c, sep) == [a, b, c]
  {
    SplitNoSep(c, sep);
    SplitOverSep(b, c, sep);
    SplitOverSep(a, b + [sep] + c, sep);
    assert a + [sep] + b + [sep] + c == a + [sep] + (b + [sep] + c);
  }

  /** Joining pieces that do not contain the separator and splitting again gives the
      pieces back, unless there was a single empty piece. */
  lemma {:induction false} SplitJoin(parts: seq<string>, sep: char)
    requires |parts| >= 1
    requires forall k :: 0 <= k < |parts| ==> sep !in parts[k]
    ensures Split(Join(parts, [sep]), sep) == parts
  {
    if |parts| == 1 {
      SplitNoSep(parts[0], sep);
    } else {
      SplitJoin(parts[1..], sep);
      SplitOverSep(parts[0], Join(parts[1..], [sep]), sep);
      assert [parts[0]] + parts[1..] == parts;
    }
  }

  // ------------------------------------------------------ numbers as text

  function DigitChar(d: int): char
    requires 0 <= d < 10
  {
    ('0' as int + d) as char
  }

  /** Decimal rendering of a natural number, as `String(n)` or `str(n)` write it. */
  function NatToString(n: nat): (r: string)
    ensures |r| >= 1
    ensures forall i :: 0 <= i < |r| ==> '0' <= r[i] <= '9'
    ensures n >= 10 ==> |r| >= 2
    decreases n
  {
    if n < 10 then [DigitChar(n)] else NatToString(n / 10) + [DigitChar(n % 10)]
  }

  /** Distinct numbers give distinct decimal renderings. */
  lemma {:induction false} NatToStringInjective(m: nat, n: nat)
    requires NatToString(m) == NatToString(n)
    ensures m == n
    decreases m
  {
    var sm, sn := NatToString(m), NatToString(n);
    if m < 10 && n < 10 {
      assert DigitChar(m) == sm[0] == DigitChar(n);
    } else if m >= 10 && n >= 10 {
      var pm, pn := NatToString(m / 10), NatToString(n / 10);
      assert sm[|sm| - 1] == DigitChar(m % 10) && sn[|sn| - 1] == DigitChar(n % 10);
      assert m % 10 == n % 10;
      assert pm == sm[..|sm| - 1] && pn == sn[..|sn| - 1];
      NatToStringInjective(m / 10, n / 10);
    }
  }

  /** `${n}` for an integer. */
  function IntToString(n: int): (r: string)
    ensures |r| >= 1
    ensures forall i :: 0 <= i < |r| ==> r[i] == '-' || '0' <= r[i] <= '9'
  {
    if n < 0 then "-" + NatToString(-n) else NatToString(n)
  }

  // ------------------------------------------------ lexicographic order

  /** Code-point lexicographic order, the order of JavaScript's default `sort` and the
      stand-in for `localeCompare` in this model. */
  predicate StrLe(a: string, b: string)
  {
    a == [] || (b != [] && (a[0] < b[0] || (a[0] == b[0] && StrLe(a[1..], b[1..]))))
  }

  lemma {:induction false} StrLeTotal(a: string, b: string)
    ensures StrLe(a, b) || StrLe(b, a)
  {
    if a != [] && b != [] && a[0] == b[0] { StrLeTotal(a[1..], b[1..]); }
  }

  lemma {:induction false} StrLeTransitive(a: string, b: string, c: string)
    requires StrLe(a, b) && StrLe(b, c)
    ensures StrLe(a, c)
  {
    if a != [] && b != [] && c != [] && a[0] == b[0] == c[0] {
      StrLeTransitive(a[1..], b[1..], c[1..]);
    }
  }

  lemma {:induction false} StrLeAntisymmetric(a: string, b: string)
    requires StrLe(a, b) && StrLe(b, a)
    ensures a == b
  {
    if a != [] && b != [] {
      StrLeAntisymmetric(a[1..], b[1..]);
      assert a == [a[0]] + a[1..] && b == [b[0]] + b[1..];
    }
  }
}
