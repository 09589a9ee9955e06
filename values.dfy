/** Python values as the dashboard receives them from its JSON documents,
    and the string operations the field classifier applies to them:
    `str()`, `str.strip()` and `str.lower()`. */
module Values {

  /** A Python value decoded from JSON. A `Dict` keeps its entries in
      insertion order, as a Python dict does; its keys are distinct, and
      lookups take the first binding of a key. */
  datatype Value =
    | None
    | Bool(b: bool)
    | Int(i: int)
    | Str(s: string)
    | List(items: seq<Value>)
    | Dict(entries: seq<(string, Value)>)

  /** `Optional[T]` of the pydantic models. */
  datatype Optional<T> = Absent | Present(value: T)

  /** `key in d` */
  predicate HasKey(entries: seq<(string, Value)>, key: string)
  {
    exists k :: 0 <= k < |entries| && entries[k].0 == key
  }

  /** `d.get(key)`: the bound value, or `None` when the key is missing. */
  function Get(entries: seq<(string, Value)>, key: string): (r: Value)
    ensures !HasKey(entries, key) ==> r == None
    ensures HasKey(entries, key) ==> exists k :: 0 <= k < |entries| && entries[k] == (key, r)
  {
    if |entries| == 0 then None
    else if entries[0].0 == key then entries[0].1
    else
      assert HasKey(entries[1..], key) <==> HasKey(entries, key) by {
        if HasKey(entries, key) {
          var k :| 0 <= k < |entries| && entries[k].0 == key;
          assert entries[1..][k - 1].0 == key;
        }
        if HasKey(entries[1..], key) {
          var k :| 0 <= k < |entries[1..]| && entries[1..][k].0 == key;
          assert entries[k + 1].0 == key;
        }
      }
      var r := Get(entries[1..], key);
      assert HasKey(entries, key) ==> exists k :: 0 <= k < |entries| && entries[k] == (key, r) by {
        if HasKey(entries, key) {
          var k :| 0 <= k < |entries[1..]| && entries[1..][k] == (key, r);
          assert entries[k + 1] == (key, r);
        }
      }
      r
  }

  function DigitChar(d: nat): (c: char)
    requires d < 10
    ensures '0' <= c <= '9'
  {
    ['0', '1', '2', '3', '4', '5', '6', '7', '8', '9'][d]
  }

  /** Decimal digits of a natural number, most significant first. */
  function NatToString(n: nat): (r: string)
    ensures |r| > 0 && forall k :: 0 <= k < |r| ==> '0' <= r[k] <= '9'
  {
    if n < 10 then [DigitChar(n)] else NatToString(n / 10) + [DigitChar(n % 10)]
  }

  /** `str(i)` of a Python int. */
  function IntToString(i: int): string
  {
    if i < 0 then "-" + NatToString(-i) else NatToString(i)
  }

  /** `sep.join(parts)` */
  function Join(parts: seq<string>, sep: string): string
  {
    if |parts| == 0 then ""
    else if |parts| == 1 then parts[0]
    else parts[0] + sep + Join(parts[1..], sep)
  }

  /** `repr(v)`: how a value prints inside a list or dict. A string is
      quoted, a list bracketed and a dict braced. */
  function Repr(v: Value): (r: string)
    ensures |r| >= 2 || v.Int?
    ensures v.None? ==> r == "None"
    ensures v.Bool? ==> r == (if v.b then "True" else "False")
    ensures v.Int? ==> |r| > 0 && (v.i < 0 <==> r[0] == '-')
    ensures v.Str? ==> r[0] == '\'' && r[|r| - 1] == '\'' && r[1..|r| - 1] == v.s
    ensures v.List? ==> r[0] == '[' && r[|r| - 1] == ']'
    ensures v.Dict? ==> r[0] == '{' && r[|r| - 1] == '}'
  {
    match v
    case None => "None"
    case Bool(b) => if b then "True" else "False"
    case Int(i) => IntToString(i)
    case Str(s) => "'" + s + "'"
    case List(items) =>
      "[" + Join(seq(|items|, k requires 0 <= k < |items| => Repr(items[k])), ", ") + "]"
    case Dict(entries) =>
      "{" + Join(seq(|entries|, k requires 0 <= k < |entries| =>
                       "'" + entries[k].0 + "': " + Repr(entries[k].1)), ", ") + "}"
  }

  /** `str(v)`: a string is itself, everything else prints as its repr. */
  function Show(v: Value): (r: string)
    ensures v.Str? ==> r == v.s
    ensures v.None? ==> r == "None"
    ensures v.Bool? ==> r == (if v.b then "True" else "False")
    ensures v.List? ==> |r| >= 2 && r[0] == '[' && r[|r| - 1] == ']'
    ensures v.Dict? ==> |r| >= 2 && r[0] == '{' && r[|r| - 1] == '}'
  {
    if v.Str? then v.s else Repr(v)
  }

  /** The characters Python's `str.strip()` removes. */
  predicate IsSpace(c: char)
  {
    c == ' ' || '\t' <= c <= '\r' || '\U{1c}' <= c <= '\U{1f}' || c == '\U{85}' || c == '\U{a0}'
    || c == '\U{1680}' || '\U{2000}' <= c <= '\U{200a}' || c == '\U{2028}' || c == '\U{2029}'
    || c == '\U{202f}' || c == '\U{205f}' || c == '\U{3000}'
  }

  predicate AllSpace(s: string)
  {
    forall k :: 0 <= k < |s| ==> IsSpace(s[k])
  }

  /** The first index at or after `i` whose character is not whitespace,
      or `|s|` when there is none. */
  function SkipSpaces(s: string, i: nat): (r: nat)
    requires i <= |s|
    ensures i <= r <= |s|
    ensures forall k :: i <= k < r ==> IsSpace(s[k])
    ensures r < |s| ==> !IsSpace(s[r])
    decreases |s| - i
  {
    if i < |s| && IsSpace(s[i]) then SkipSpaces(s, i + 1) else i
  }

  /** Just past the last character of `s[lo..j]` that is not whitespace, or
      `lo` when there is none. */
  function SkipSpacesBack(s: string, lo: nat, j: nat): (r: nat)
    requires lo <= j <= |s|
    ensures lo <= r <= j
    ensures forall k :: r <= k < j ==> IsSpace(s[k])
    ensures r > lo ==> !IsSpace(s[r - 1])
  {
    if j > lo && IsSpace(s[j - 1]) then SkipSpacesBack(s, lo, j - 1) else j
  }

  /** `s[i..j]` is `s` with whitespace, and only whitespace, cut from both
      ends, and with no whitespace left at either end. */
  predicate TrimmedTo(s: string, i: int, j: int)
  {
    0 <= i <= j <= |s|
    && (forall k :: 0 <= k < i ==> IsSpace(s[k]))
    && (forall k :: j <= k < |s| ==> IsSpace(s[k]))
    && (i < j ==> !IsSpace(s[i]) && !IsSpace(s[j - 1]))
  }

  /** Where the visible part of `s` starts and ends. */
  function StripBounds(s: string): (b: (int, int))
    ensures TrimmedTo(s, b.0, b.1)
  {
    var i := SkipSpaces(s, 0);
    (i, SkipSpacesBack(s, i, |s|))
  }

  /** `s.strip()` */
  function Strip(s: string): (r: string)
    ensures exists i, j :: TrimmedTo(s, i, j) && r == s[i..j]
  {
    var b := StripBounds(s);
    s[b.0..b.1]
  }

  /** Two trimmings of the same string keep the same characters. */
  lemma TrimmedUnique(s: string, i: int, j: int, i': int, j': int)
    requires TrimmedTo(s, i, j) && TrimmedTo(s, i', j')
    ensures s[i..j] == s[i'..j']
  {
    assert (i < j) == (i' < j') by {
      if i < j { assert !IsSpace(s[i]); }
      if i' < j' { assert !IsSpace(s[i']); }
    }
    if i < j {
      assert !IsSpace(s[i]) && !IsSpace(s[i']) && !IsSpace(s[j - 1]) && !IsSpace(s[j' - 1]);
      assert i == i' && j == j';
    }
  }

  /** A string has one trimmed slice, so `strip()` is the only slice of `s`
      with whitespace, and only whitespace, cut from its ends and none left. */
  lemma StripUnique(s: string, i: int, j: int)
    requires TrimmedTo(s, i, j)
    ensures Strip(s) == s[i..j]
  {
    var b := StripBounds(s);
    TrimmedUnique(s, i, j, b.0, b.1);
  }

  /** `str.lower()` on one character (ASCII letters only). */
  function LowerChar(c: char): char
  {
    if 'A' <= c <= 'Z' then (c as int + 32) as char else c
  }

  /** `s.lower()`: every character mapped through `LowerChar`, in place, so
      no capital letter is left and every other character is kept. */
  function Lower(s: string): (r: string)
    ensures |r| == |s|
    ensures forall k :: 0 <= k < |s| ==> r[k] == LowerChar(s[k])
    ensures forall k :: 0 <= k < |r| ==> !('A' <= r[k] <= 'Z')
    ensures forall k :: 0 <= k < |s| && !('A' <= s[k] <= 'Z') ==> r[k] == s[k]
    ensures forall k :: 0 <= k < |s| && 'A' <= s[k] <= 'Z' ==> r[k] as int == s[k] as int + 32
  {
    seq(|s|, k requires 0 <= k < |s| => LowerChar(s[k]))
  }

  /** `s.strip().lower()`, the normal form the classifier compares. */
  function Normalise(s: string): string
  {
    Lower(Strip(s))
  }

  /** Whitespace put before a trimmed string leaves it trimmed at the
      shifted indices. */
  lemma TrimmedAfterPrefix(w: string, s: string, i: int, j: int)
    requires AllSpace(w) && TrimmedTo(s, i, j)
    ensures TrimmedTo(w + s, |w| + i, |w| + j)
    ensures (w + s)[|w| + i..|w| + j] == s[i..j]
  {
    var p := w + s;
    forall k | 0 <= k < |w| + i ensures IsSpace(p[k]) {
      if k < |w| { assert p[k] == w[k]; } else { assert p[k] == s[k - |w|]; }
    }
    forall k | |w| + j <= k < |p| ensures IsSpace(p[k]) {
      assert p[k] == s[k - |w|];
    }
    if i < j {
      assert p[|w| + i] == s[i] && p[|w| + j - 1] == s[j - 1];
    }
  }

  /** Whitespace put after a trimmed string leaves it trimmed. */
  lemma TrimmedBeforeSuffix(s: string, w: string, i: int, j: int)
    requires AllSpace(w) && TrimmedTo(s, i, j)
    ensures TrimmedTo(s + w, i, j)
    ensures (s + w)[i..j] == s[i..j]
  {
    var p := s + w;
    forall k | 0 <= k < i ensures IsSpace(p[k]) {
      assert p[k] == s[k];
    }
    forall k | j <= k < |p| ensures IsSpace(p[k]) {
      if k < |s| { assert p[k] == s[k]; } else { assert p[k] == w[k - |s|]; }
    }
    if i < j {
      assert p[i] == s[i] && p[j - 1] == s[j - 1];
    }
  }

  lemma LeadingSpacesIgnored(w: string, s: string)
    requires AllSpace(w)
    ensures Strip(w + s) == Strip(s)
  {
    var (i, j) := StripBounds(s);
    assert Strip(w + s) == s[i..j] by {
      TrimmedAfterPrefix(w, s, i, j);
      StripUnique(w + s, |w| + i, |w| + j);
    }
  }

  lemma TrailingSpacesIgnored(s: string, w: string)
    requires AllSpace(w)
    ensures Strip(s + w) == Strip(s)
  {
    var (i, j) := StripBounds(s);
    assert Strip(s + w) == s[i..j] by {
      TrimmedBeforeSuffix(s, w, i, j);
      StripUnique(s + w, i, j);
    }
  }

  /** Whitespace around a value never changes what `strip()` gives. */
  lemma StripIgnoresPadding(w1: string, s: string, w2: string)
    requires AllSpace(w1) && AllSpace(w2)
    ensures Strip(w1 + s + w2) == Strip(s)
  {
    TrailingSpacesIgnored(w1 + s, w2);
    LeadingSpacesIgnored(w1, s);
  }

  /** A string with no whitespace at either end is its own `strip()`. */
  lemma StripUnpadded(s: string)
    requires |s| > 0 ==> !IsSpace(s[0]) && !IsSpace(s[|s| - 1])
    ensures Strip(s) == s
  {
    assert TrimmedTo(s, 0, |s|);
    StripUnique(s, 0, |s|);
    assert s[0..|s|] == s;
  }

  /** `LowerChar` never turns whitespace into a visible character or back. */
  lemma LowerCharKeepsSpace(c: char)
    ensures IsSpace(LowerChar(c)) == IsSpace(c)
  {
  }

  /** Lower-casing a slice is slicing the lower-cased string. */
  lemma LowerSlice(s: string, i: nat, j: nat)
    requires i <= j <= |s|
    ensures Lower(s)[i..j] == Lower(s[i..j])
  {
    var a, b := Lower(s)[i..j], Lower(s[i..j]);
    forall k | 0 <= k < |a| ensures a[k] == b[k] {
      assert s[i..j][k] == s[i + k];
    }
  }

  /** Lower-casing twice is lower-casing once. */
  lemma LowerIdempotent(s: string)
    ensures Lower(Lower(s)) == Lower(s)
  {
  }

  /** Stripping and lower-casing can be done in either order, since
      lower-casing never changes which characters are whitespace. */
  lemma StripLower(s: string)
    ensures Strip(Lower(s)) == Lower(Strip(s))
  {
    var (i, j) := StripBounds(s);
    var l := Lower(s);
    forall k | 0 <= k < |s| ensures IsSpace(l[k]) == IsSpace(s[k]) {
      LowerCharKeepsSpace(s[k]);
    }
    assert TrimmedTo(l, i, j);
    StripUnique(l, i, j);
    LowerSlice(s, i, j);
  }

  /** Lower-casing a string first never changes its normal form. */
  lemma NormaliseIgnoresCase(s: string)
    ensures Normalise(Lower(s)) == Normalise(s)
  {
    StripLower(s);
    LowerIdempotent(Strip(s));
  }

  /** Normalising twice is normalising once: the normal form is canonical. */
  lemma NormaliseIdempotent(s: string)
    ensures Normalise(Normalise(s)) == Normalise(s)
  {
    var t := Strip(s);
    var (i, j) := StripBounds(s);
    assert |t| > 0 ==> t[0] == s[i] && t[|t| - 1] == s[j - 1];
    StripUnpadded(t);
    StripLower(t);
    LowerIdempotent(t);
  }

  lemma LowerExample()
    ensures Lower("ABC") == "abc"
  {
    assert LowerChar('A') == 'a' && LowerChar('B') == 'b' && LowerChar('C') == 'c';
  }
}
