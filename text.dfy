/**
 * The JavaScript string built-ins the core relies on: `trim`, `split`,
 * `startsWith`, `parseInt`, and number-to-string conversion.
 */
module Strings {
  import opened Wrappers

  /** The WhiteSpace and LineTerminator code points of ECMAScript, which `trim` and `parseInt` skip. */
  const JsWhitespace: set<char> := {
    '\U{0009}', '\U{000A}', '\U{000B}', '\U{000C}', '\U{000D}', '\U{0020}', '\U{00A0}', '\U{1680}',
    '\U{2000}', '\U{2001}', '\U{2002}', '\U{2003}', '\U{2004}', '\U{2005}', '\U{2006}', '\U{2007}',
    '\U{2008}', '\U{2009}', '\U{200A}', '\U{2028}', '\U{2029}', '\U{202F}', '\U{205F}', '\U{3000}',
    '\U{FEFF}'
  }

  predicate IsJsWhitespace(c: char) {
    c in JsWhitespace
  }

  predicate StartsWith(s: string, prefix: string) {
    |prefix| <= |s| && s[..|prefix|] == prefix
  }

  // ---------------------------------------------------------------------------
  // trim

  function TrimStart(s: string): (r: string)
    ensures |r| <= |s| && r == s[|s| - |r|..]
    ensures r == [] || !IsJsWhitespace(r[0])
    ensures forall i | 0 <= i < |s| - |r| :: IsJsWhitespace(s[i])
  {
    if s != [] && IsJsWhitespace(s[0]) then TrimStart(s[1..]) else s
  }

  function TrimEnd(s: string): (r: string)
    ensures |r| <= |s| && r == s[..|r|]
    ensures r == [] || !IsJsWhitespace(r[|r| - 1])
    ensures forall i | |r| <= i < |s| :: IsJsWhitespace(s[i])
  {
    if s != [] && IsJsWhitespace(s[|s| - 1]) then TrimEnd(s[..|s| - 1]) else s
  }

  /** `String.prototype.trim`. */
  function Trim(s: string): (r: string)
    ensures r == [] || (!IsJsWhitespace(r[0]) && !IsJsWhitespace(r[|r| - 1]))
  {
    TrimEnd(TrimStart(s))
  }

  /** The trimmed string is the slice of the input between a whitespace prefix and a whitespace suffix. */
  lemma TrimSlice(s: string) returns (i: nat, j: nat)
    ensures i <= j <= |s| && Trim(s) == s[i..j]
    ensures forall k | 0 <= k < i :: IsJsWhitespace(s[k])
    ensures forall k | j <= k < |s| :: IsJsWhitespace(s[k])
  {
    var t := TrimStart(s);
    i := |s| - |t|;
    var u := TrimEnd(t);
    j := i + |u|;
    assert t == s[i..];
    assert u == t[..|u|];
    assert u == s[i..j];
    forall k | j <= k < |s| ensures IsJsWhitespace(s[k]) {
      assert s[k] == t[k - i];
    }
  }

  /** A string without whitespace at either end is its own trim. */
  lemma TrimOfTrimmed(s: string)
    requires s == [] || (!IsJsWhitespace(s[0]) && !IsJsWhitespace(s[|s| - 1]))
    ensures Trim(s) == s
  {
  }

  lemma TrimIdempotent(s: string)
    ensures Trim(Trim(s)) == Trim(s)
  {
    TrimOfTrimmed(Trim(s));
  }

  // ---------------------------------------------------------------------------
  // split and filter(Boolean)

  /** `s.split(sep)`: the pieces between separators, empty pieces included. */
  function Split(s: string, sep: char): (r: seq<string>)
    ensures |r| >= 1
    ensures forall i | 0 <= i < |r| :: sep !in r[i]
  {
    if s == [] then [""]
    else
      var rest := Split(s[1..], sep);
      if s[0] == sep then [""] + rest else [[s[0]] + rest[0]] + rest[1..]
  }

  /** `parts.join(sep)`. */
  function Join(parts: seq<string>, sep: char): string {
    if parts == [] then ""
    else if |parts| == 1 then parts[0]
    else parts[0] + [sep] + Join(parts[1..], sep)
  }

  /** Splitting and joining again gives back the string. */
  lemma {:induction false} JoinSplit(s: string, sep: char)
    ensures Join(Split(s, sep), sep) == s
  {
    if s != [] {
      var rest := Split(s[1..], sep);
      JoinSplit(s[1..], sep);
      if s[0] == sep {
        assert Split(s, sep) == [""] + rest;
        assert ([""] + rest)[1..] == rest;
      } else if |rest| == 1 {
        assert Split(s, sep) == [[s[0]] + rest[0]];
      } else {
        var parts := [[s[0]] + rest[0]] + rest[1..];
        assert parts[1..] == rest[1..];
        assert s == [s[0]] + s[1..];
      }
    }
  }

  /** Splitting at the first separator of `a + [sep] + b` splits `a` and `b` independently. */
  lemma {:induction false} SplitAround(a: string, sep: char, b: string)
    ensures Split(a + [sep] + b, sep) == Split(a, sep) + Split(b, sep)
  {
    var s := a + [sep] + b;
    if a == [] {
      assert s == [sep] + b;
      assert s[1..] == b;
      assert Split(s, sep) == [""] + Split(b, sep);
    } else {
      assert s[0] == a[0];
      assert s[1..] == a[1..] + [sep] + b;
      SplitAround(a[1..], sep, b);
      var ra := Split(a[1..], sep);
      var rb := Split(b, sep);
      assert Split(s[1..], sep) == ra + rb;
      if a[0] == sep {
        assert Split(s, sep) == [""] + (ra + rb);
        assert Split(a, sep) == [""] + ra;
      } else {
        assert (ra + rb)[0] == ra[0];
        assert (ra + rb)[1..] == ra[1..] + rb;
        assert Split(s, sep) == [[a[0]] + ra[0]] + (ra[1..] + rb);
        assert Split(a, sep) == [[a[0]] + ra[0]] + ra[1..];
      }
    }
  }

  lemma {:induction false} SplitNoSeparator(s: string, sep: char)
    requires sep !in s
    ensures Split(s, sep) == [s]
  {
    if s != [] {
      SplitNoSeparator(s[1..], sep);
      assert [s[0]] + s[1..] == s;
    }
  }

  /** Joining pieces that contain no separator and splitting again gives back the pieces. */
  lemma {:induction false} SplitJoin(parts: seq<string>, sep: char)
    requires |parts| >= 1
    requires forall i | 0 <= i < |parts| :: sep !in parts[i]
    ensures Split(Join(parts, sep), sep) == parts
  {
    if |parts| == 1 {
      SplitNoSeparator(parts[0], sep);
    } else {
      SplitJoin(parts[1..], sep);
      SplitNoSeparator(parts[0], sep);
      SplitAround(parts[0], sep, Join(parts[1..], sep));
      assert parts == [parts[0]] + parts[1..];
    }
  }

  /** Every piece of a split is made of characters of the string. */
  lemma {:induction false} SplitChars(s: string, sep: char, c: char)
    requires c !in s
    ensures forall i | 0 <= i < |Split(s, sep)| :: c !in Split(s, sep)[i]
  {
    if s != [] {
      SplitChars(s[1..], sep, c);
      var rest := Split(s[1..], sep);
      if s[0] != sep {
        assert c !in [s[0]] + rest[0];
        assert forall i | 1 <= i < |rest| :: rest[i] in rest[1..];
      }
    }
  }

  /** `s` without its trailing slashes. */
  function DropTrailingSlashes(s: string): (r: string)
    ensures |r| <= |s| && r == s[..|r|]
    ensures r == [] || r[|r| - 1] != '/'
    ensures forall i | |r| <= i < |s| :: s[i] == '/'
  {
    if s != [] && s[|s| - 1] == '/' then DropTrailingSlashes(s[..|s| - 1]) else s
  }

  /** `path.basename(p)` on POSIX paths: the part after the last `/`, trailing slashes ignored. */
  function BaseName(p: string): (r: string)
    ensures '/' !in r
  {
    var parts := Split(DropTrailingSlashes(p), '/');
    parts[|parts| - 1]
  }

  /** A base name only holds characters of the path. */
  lemma BaseNameChars(p: string, c: char)
    requires c !in p
    ensures c !in BaseName(p)
  {
    var q := DropTrailingSlashes(p);
    assert c !in q;
    SplitChars(q, '/', c);
  }

  /** Without a slash in the path, the base name is the whole path. */
  lemma BaseNamePlain(p: string)
    requires '/' !in p
    ensures BaseName(p) == p
  {
    SplitNoSeparator(p, '/');
  }

  /** The base name of `dir + "/" + name` is `name` when `name` has no slash. */
  lemma BaseNameOfPath(dir: string, name: string)
    requires name != [] && '/' !in name
    ensures BaseName(dir + "/" + name) == name
  {
    var p := dir + "/" + name;
    assert p[|p| - 1] == name[|name| - 1];
    assert DropTrailingSlashes(p) == p;
    SplitAround(dir, '/', name);
    SplitNoSeparator(name, '/');
    assert dir + "/" + name == dir + ['/'] + name;
  }

  /** `parts.filter(Boolean)` on strings: drops the empty ones. */
  function NonEmpty(parts: seq<string>): (r: seq<string>)
    ensures |r| <= |parts|
    ensures forall i | 0 <= i < |r| :: r[i] != "" && r[i] in parts
    ensures forall i | 0 <= i < |parts| :: parts[i] != "" ==> parts[i] in r
  {
    if parts == [] then []
    else if parts[0] == "" then NonEmpty(parts[1..])
    else [parts[0]] + NonEmpty(parts[1..])
  }

  lemma {:induction false} NonEmptyAppend(a: seq<string>, b: seq<string>)
    ensures NonEmpty(a + b) == NonEmpty(a) + NonEmpty(b)
  {
    if a != [] {
      NonEmptyAppend(a[1..], b);
      assert (a + b)[1..] == a[1..] + b;
    } else {
      assert a + b == b;
    }
  }

  /** `s.split('/').filter(Boolean)`: the path segments of `s`. */
  function Segments(s: string): (r: seq<string>)
    ensures forall i | 0 <= i < |r| :: r[i] != "" && '/' !in r[i]
  {
    NonEmpty(Split(s, '/'))
  }

  /** A leading slash does not change the segments. */
  lemma SegmentsLeadingSlash(s: string)
    ensures Segments("/" + s) == Segments(s)
  {
    SplitAround("", '/', s);
    assert "" + ['/'] + s == "/" + s;
    NonEmptyAppend([""], Split(s, '/'));
  }

  /** A trailing slash does not change the segments. */
  lemma SegmentsTrailingSlash(s: string)
    ensures Segments(s + "/") == Segments(s)
  {
    SplitAround(s, '/', "");
    assert s + ['/'] + "" == s + "/";
    NonEmptyAppend(Split(s, '/'), [""]);
    assert Split(s, '/') + [] == Split(s, '/');
  }

  /** A doubled slash splits like a single one. */
  lemma SegmentsDoubledSlash(a: string, b: string)
    ensures Segments(a + "//" + b) == Segments(a + "/" + b)
  {
    SplitAround(a, '/', "/" + b);
    assert a + ['/'] + ("/" + b) == a + "//" + b;
    SplitAround(a, '/', b);
    assert a + ['/'] + b == a + "/" + b;
    SegmentsLeadingSlash(b);
    NonEmptyAppend(Split(a, '/'), Split("/" + b, '/'));
    NonEmptyAppend(Split(a, '/'), Split(b, '/'));
  }

  // ---------------------------------------------------------------------------
  // numbers as text

  function DigitChar(d: nat): char
    requires d < 10
  {
    "0123456789"[d]
  }

  /** `String(n)` for a non-negative integer: its decimal digits, without leading zeros. */
  function DecimalString(n: nat): (r: string)
    ensures |r| >= 1
    ensures forall i | 0 <= i < |r| :: '0' <= r[i] <= '9'
    ensures |r| > 1 ==> r[0] != '0'
  {
    if n < 10 then [DigitChar(n)] else DecimalString(n / 10) + [DigitChar(n % 10)]
  }

  /** The radix argument of `parseInt`: 10, or omitted (decimal unless the digits start with `0x`). */
  datatype Radix = Decimal | Unspecified

  /** The value of a digit in base 10 or 16. */
  function DigitValue(c: char, base: nat): Option<nat> {
    if '0' <= c <= '9' then Some(c as int - '0' as int)
    else if base == 16 && 'a' <= c <= 'f' then Some(c as int - 'a' as int + 10)
    else if base == 16 && 'A' <= c <= 'F' then Some(c as int - 'A' as int + 10)
    else None
  }

  /** The longest prefix of `s` made of digits in `base`. */
  function LeadingDigits(s: string, base: nat): (r: string)
    ensures |r| <= |s| && r == s[..|r|]
    ensures forall i | 0 <= i < |r| :: DigitValue(r[i], base).Some?
    ensures |r| < |s| ==> DigitValue(s[|r|], base).None?
  {
    if s != [] && DigitValue(s[0], base).Some? then [s[0]] + LeadingDigits(s[1..], base) else ""
  }

  /** The number that a string of digits in `base` denotes. */
  function DigitsValue(ds: string, base: nat): nat
    requires forall i | 0 <= i < |ds| :: DigitValue(ds[i], base).Some?
  {
    if ds == [] then 0
    else DigitsValue(ds[..|ds| - 1], base) * base + DigitValue(ds[|ds| - 1], base).value
  }

  /**
   * `parseInt(s, radix)`: skip leading whitespace, take an optional sign and,
   * when no radix is given, an optional `0x`; then read the longest run of
   * digits. No digits gives `NaN`, written `None`.
   */
  function ParseInt(s: string, radix: Radix): Option<int> {
    var t := TrimStart(s);
    var negative := t != [] && t[0] == '-';
    var u := if t != [] && (t[0] == '-' || t[0] == '+') then t[1..] else t;
    var hex := radix == Unspecified && |u| >= 2 && u[0] == '0' && (u[1] == 'x' || u[1] == 'X');
    var base := if hex then 16 else 10;
    var ds := LeadingDigits(if hex then u[2..] else u, base);
    if ds == [] then None
    else
      var n: int := DigitsValue(ds, base);
      Some(if negative then -n else n)
  }

  /** Text that does not start (after whitespace and a sign) with a digit is `NaN`. */
  lemma ParseIntNaN(s: string, radix: Radix)
    requires var t := TrimStart(s);
             var u := if t != [] && (t[0] == '-' || t[0] == '+') then t[1..] else t;
             u == [] || !('0' <= u[0] <= '9')
    ensures ParseInt(s, radix) == None
  {
  }

  lemma {:induction false} DecimalStringValue(n: nat)
    ensures DigitsValue(DecimalString(n), 10) == n
  {
    var r := DecimalString(n);
    if n >= 10 {
      DecimalStringValue(n / 10);
      assert r[..|r| - 1] == DecimalString(n / 10);
      assert DigitValue(DigitChar(n % 10), 10) == Some(n % 10);
    } else {
      assert DigitValue(DigitChar(n), 10) == Some(n);
    }
  }

  lemma {:induction false} LeadingDigitsAll(s: string, base: nat)
    requires forall i | 0 <= i < |s| :: DigitValue(s[i], base).Some?
    ensures LeadingDigits(s, base) == s
  {
    if s != [] {
      LeadingDigitsAll(s[1..], base);
    }
  }

  lemma ParseIntOfDigits(r: string, radix: Radix)
    requires r != [] && forall i | 0 <= i < |r| :: '0' <= r[i] <= '9'
    ensures forall i | 0 <= i < |r| :: DigitValue(r[i], 10).Some?
    ensures ParseInt(r, radix) == Some(DigitsValue(r, 10))
  {
    DigitNotSpace(r[0]);
    TrimStartNoSpace(r);
    assert r[0] != '-' && r[0] != '+';
    var hex := radix == Unspecified && |r| >= 2 && r[0] == '0' && (r[1] == 'x' || r[1] == 'X');
    assert !hex by {
      if |r| >= 2 { assert '0' <= r[1] <= '9'; }
    }
    assert forall i | 0 <= i < |r| :: DigitValue(r[i], 10).Some?;
    LeadingDigitsAll(r, 10);
    ParseIntUnsigned(r, radix);
  }

  lemma DigitNotSpace(c: char)
    requires '0' <= c <= '9'
    ensures !IsJsWhitespace(c)
  {
  }

  lemma TrimStartNoSpace(s: string)
    requires s == [] || !IsJsWhitespace(s[0])
    ensures TrimStart(s) == s
  {
  }

  /** `parseInt` of text with no leading whitespace, sign or `0x`: the value of its leading decimal digits. */
  lemma ParseIntUnsigned(u: string, radix: Radix)
    requires TrimStart(u) == u && (u == [] || (u[0] != '-' && u[0] != '+'))
    requires !(radix == Unspecified && |u| >= 2 && u[0] == '0' && (u[1] == 'x' || u[1] == 'X'))
    ensures var ds := LeadingDigits(u, 10);
      ParseInt(u, radix) == if ds == [] then None else Some(DigitsValue(ds, 10))
  {
  }

  /** `parseInt(String(n))` gives back `n`, with or without an explicit radix. */
  lemma ParseIntDecimalString(n: nat, radix: Radix)
    ensures ParseInt(DecimalString(n), radix) == Some(n)
  {
    ParseIntOfDigits(DecimalString(n), radix);
    DecimalStringValue(n);
  }
}
