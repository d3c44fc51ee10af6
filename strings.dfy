/** The string operations the Farmhand code applies to file names, keys and
    form fields: `trim`, `replace(/\s+/g, '_')`, stripping characters outside a
    class, `toLowerCase`, `path.basename`, `String(n)` and `padStart`.
    Whitespace is the ECMAScript set (`Spaces`) and lengths count UTF-16
    code units. */
module Strings {

  /** The characters of the class `\s`, which are also what `trim()` cuts
      off: the WhiteSpace and LineTerminator characters of ECMAScript, that
      is tab, vertical tab, form feed, the byte order mark, the Unicode space
      separators (space, no-break space, U+1680, U+2000 to U+200A, U+202F,
      U+205F, U+3000), line feed, carriage return and the line and
      paragraph separators. */
  const Spaces: set<char> := {
    '\t', '\n', '\U{000B}', '\U{000C}', '\r', ' ', '\U{00A0}', '\U{1680}',
    '\U{2000}', '\U{2001}', '\U{2002}', '\U{2003}', '\U{2004}', '\U{2005}', '\U{2006}', '\U{2007}',
    '\U{2008}', '\U{2009}', '\U{200A}', '\U{2028}', '\U{2029}', '\U{202F}', '\U{205F}', '\U{3000}',
    '\U{FEFF}'}

  predicate IsSpace(c: char)
  {
    c in Spaces
  }

  predicate IsLower(c: char)
  {
    'a' <= c <= 'z'
  }

  predicate IsUpper(c: char)
  {
    'A' <= c <= 'Z'
  }

  predicate IsDigit(c: char)
  {
    '0' <= c <= '9'
  }

  /** A character of the class `\w`, equivalently `[a-zA-Z0-9_]`. */
  predicate IsWordChar(c: char)
  {
    IsLower(c) || IsUpper(c) || IsDigit(c) || c == '_'
  }

  /** A character that the file-name sanitisers keep: `[\w.-]`. */
  predicate IsSafeChar(c: char)
  {
    IsWordChar(c) || c == '.' || c == '-'
  }

  predicate NoSpace(s: string)
  {
    forall i :: 0 <= i < |s| ==> !IsSpace(s[i])
  }

  predicate AllSafe(s: string)
  {
    forall i :: 0 <= i < |s| ==> IsSafeChar(s[i])
  }

  predicate AllSpace(s: string)
  {
    forall i :: 0 <= i < |s| ==> IsSpace(s[i])
  }

  // ---------------------------------------------------------------- trim

  function TrimStart(s: string): string
  {
    if s != [] && IsSpace(s[0]) then TrimStart(s[1..]) else s
  }

  function TrimEnd(s: string): string
  {
    if s != [] && IsSpace(s[|s| - 1]) then TrimEnd(s[..|s| - 1]) else s
  }

  /** `s.trim()`. */
  function Trim(s: string): string
  {
    TrimEnd(TrimStart(s))
  }

  /** `TrimStart` cuts a whitespace prefix and stops at the first other character. */
  lemma {:induction false} TrimStartShape(s: string)
    ensures var r := TrimStart(s);
      |r| <= |s| && r == s[|s| - |r|..] && (r == [] || !IsSpace(r[0])) && AllSpace(s[..|s| - |r|])
  {
    if s != [] && IsSpace(s[0]) {
      TrimStartShape(s[1..]);
      var r := TrimStart(s);
      assert s[..|s| - |r|] == [s[0]] + s[1..][..|s| - 1 - |r|];
    }
  }

  /** `TrimEnd` cuts a whitespace suffix and stops at the last other character. */
  lemma {:induction false} TrimEndShape(s: string)
    ensures var r := TrimEnd(s);
      |r| <= |s| && r == s[..|r|] && (r == [] || !IsSpace(r[|r| - 1])) && AllSpace(s[|r|..])
  {
    if s != [] && IsSpace(s[|s| - 1]) {
      TrimEndShape(s[..|s| - 1]);
      var r := TrimEnd(s);
      assert s[|r|..] == s[..|s| - 1][|r|..] + [s[|s| - 1]];
    }
  }

  /** The trimmed string is a slice of the input that neither starts nor ends
      with whitespace, and only whitespace was cut off on either side. */
  lemma TrimIsCore(s: string)
    ensures var r := Trim(s);
      r == [] || (!IsSpace(r[0]) && !IsSpace(r[|r| - 1]))
    ensures exists i, j :: 0 <= i <= j <= |s| && Trim(s) == s[i..j] && AllSpace(s[..i]) && AllSpace(s[j..])
  {
    var t := TrimStart(s);
    TrimStartShape(s);
    TrimEndShape(t);
    var r := TrimEnd(t);
    var i := |s| - |t|;
    var j := i + |r|;
    assert t == s[i..];
    assert r == t[..|r|] == s[i..j];
    assert s[j..] == t[|r|..];
    assert Trim(s) == s[i..j] && AllSpace(s[..i]) && AllSpace(s[j..]);
    if r != [] {
      assert r[0] == t[0];
    }
  }

  /** Trimming a string without whitespace changes nothing. */
  lemma TrimNoSpace(s: string)
    requires NoSpace(s)
    ensures Trim(s) == s
  {
  }

  // ------------------------------------------------- replace(/\s+/g, '_')

  /** Drops the maximal run of whitespace at the start. */
  function DropSpaces(s: string): (r: string)
    ensures |r| <= |s| && r == s[|s| - |r|..]
    ensures r == [] || !IsSpace(r[0])
  {
    if s != [] && IsSpace(s[0]) then DropSpaces(s[1..]) else s
  }

  /** `s.replace(/\s+/g, '_')`: every maximal run of whitespace becomes one `_`. */
  function CollapseSpaces(s: string): (r: string)
    ensures |r| <= |s|
    decreases |s|
  {
    if s == [] then []
    else if IsSpace(s[0]) then "_" + CollapseSpaces(DropSpaces(s[1..]))
    else [s[0]] + CollapseSpaces(s[1..])
  }

  /** No whitespace survives the replacement. */
  lemma {:induction false} CollapseSpacesNoSpace(s: string)
    ensures NoSpace(CollapseSpaces(s))
    decreases |s|
  {
    if s == [] {
    } else if IsSpace(s[0]) {
      CollapseSpacesNoSpace(DropSpaces(s[1..]));
    } else {
      CollapseSpacesNoSpace(s[1..]);
    }
  }

  lemma {:induction false} CollapseNoSpace(s: string)
    requires NoSpace(s)
    ensures CollapseSpaces(s) == s
    decreases |s|
  {
    if s != [] {
      CollapseNoSpace(s[1..]);
    }
  }

  lemma {:induction false} DropSpacesRun(w: string, b: string)
    requires AllSpace(w)
    requires b == [] || !IsSpace(b[0])
    ensures DropSpaces(w + b) == b
    decreases |w|
  {
    if w == [] {
      assert w + b == b;
    } else {
      assert (w + b)[1..] == w[1..] + b;
      DropSpacesRun(w[1..], b);
    }
  }

  /** A run of whitespace between two parts that do not touch it becomes a
      single `_`, and the parts are processed independently. */
  lemma {:induction false} CollapseRun(a: string, w: string, b: string)
    requires AllSpace(w) && w != []
    requires b == [] || !IsSpace(b[0])
    requires a == [] || !IsSpace(a[|a| - 1])
    ensures CollapseSpaces(a + w + b) == CollapseSpaces(a) + "_" + CollapseSpaces(b)
    decreases |a|, 1
  {
    if a == [] {
      assert a + w + b == w + b;
      CollapseLeadingSpaces(w, b);
    } else if !IsSpace(a[0]) {
      CollapseRunCons(a, w, b);
    } else {
      var a' := DropSpaces(a);
      var sp := a[..|a| - |a'|];
      DropSpacesPrefix(a);
      assert a == sp + a';
      assert !AllSpace(a) by { assert !IsSpace(a[|a| - 1]); }
      assert a' != [];
      assert a'[|a'| - 1] == a[|a| - 1];
      CollapseRunAfterSpaces(sp, a', w, b);
    }
  }

  /** The head of the first of three concatenated parts. */
  lemma SplitHead<T>(a: seq<T>, w: seq<T>, b: seq<T>)
    requires a != []
    ensures a + w + b == [a[0]] + (a[1..] + w + b)
  {
    assert a == [a[0]] + a[1..];
  }

  lemma Regroup<T>(c: seq<T>, y: seq<T>, u: seq<T>, z: seq<T>)
    ensures c + (y + u + z) == (c + y) + u + z
  {
  }

  lemma {:induction false} CollapseRunCons(a: string, w: string, b: string)
    requires AllSpace(w) && w != []
    requires b == [] || !IsSpace(b[0])
    requires a != [] && !IsSpace(a[0]) && !IsSpace(a[|a| - 1])
    ensures CollapseSpaces(a + w + b) == CollapseSpaces(a) + "_" + CollapseSpaces(b)
    decreases |a|, 0
  {
    var y, z := CollapseSpaces(a[1..]), CollapseSpaces(b);
    assert a[1..] == [] || !IsSpace(a[1..][|a[1..]| - 1]);
    CollapseRun(a[1..], w, b);
    SplitHead(a, w, b);
    CollapseHead(a[0], a[1..] + w + b);
    assert a == [a[0]] + a[1..];
    CollapseHead(a[0], a[1..]);
    Regroup([a[0]], y, "_", z);
  }

  lemma {:induction false} CollapseRunAfterSpaces(sp: string, x: string, w: string, b: string)
    requires AllSpace(sp) && sp != []
    requires x != [] && !IsSpace(x[0]) && !IsSpace(x[|x| - 1])
    requires AllSpace(w) && w != []
    requires b == [] || !IsSpace(b[0])
    ensures CollapseSpaces(sp + x + w + b) == CollapseSpaces(sp + x) + "_" + CollapseSpaces(b)
    decreases |sp| + |x|, 0
  {
    var t := x + w + b;
    var y, z := CollapseSpaces(x), CollapseSpaces(b);
    calc {
      CollapseSpaces(sp + x + w + b);
      { assert sp + x + w + b == sp + t; }
      CollapseSpaces(sp + t);
      { CollapseLeadingSpaces(sp, t); }
      "_" + CollapseSpaces(t);
      { CollapseRun(x, w, b); }
      "_" + (y + "_" + z);
      ("_" + y) + "_" + z;
      { CollapseLeadingSpaces(sp, x); }
      CollapseSpaces(sp + x) + "_" + z;
    }
  }

  lemma CollapseHead(c: char, x: string)
    requires !IsSpace(c)
    ensures CollapseSpaces([c] + x) == [c] + CollapseSpaces(x)
  {
    assert ([c] + x)[1..] == x;
  }

  /** A non-empty run of whitespace at the start becomes one `_`. */
  lemma CollapseLeadingSpaces(sp: string, x: string)
    requires AllSpace(sp) && sp != []
    requires x == [] || !IsSpace(x[0])
    ensures CollapseSpaces(sp + x) == "_" + CollapseSpaces(x)
  {
    assert (sp + x)[0] == sp[0];
    assert (sp + x)[1..] == sp[1..] + x;
    DropSpacesRun(sp[1..], x);
  }

  lemma {:induction false} DropSpacesPrefix(s: string)
    ensures AllSpace(s[..|s| - |DropSpaces(s)|])
  {
    if s != [] && IsSpace(s[0]) {
      DropSpacesPrefix(s[1..]);
      assert s[..|s| - |DropSpaces(s)|] == [s[0]] + s[1..][..|s[1..]| - |DropSpaces(s[1..])|];
    }
  }

  // --------------------------------------------------- keep [\w.-] only

  /** `s.replace(/[^\w.-]/g, '')` (equivalently `[^a-zA-Z0-9_.-]`). */
  function KeepSafe(s: string): (r: string)
    ensures |r| <= |s|
    ensures AllSafe(r)
  {
    if s == [] then []
    else if IsSafeChar(s[0]) then [s[0]] + KeepSafe(s[1..])
    else KeepSafe(s[1..])
  }

  lemma {:induction false} KeepSafeIdentity(s: string)
    requires AllSafe(s)
    ensures KeepSafe(s) == s
  {
    if s != [] {
      KeepSafeIdentity(s[1..]);
    }
  }

  lemma SafeHasNoSpace(s: string)
    requires AllSafe(s)
    ensures NoSpace(s)
  {
  }

  // ------------------------------------------------------ other helpers

  /** `toLowerCase()`, character by character: the ASCII capitals and the
      Kelvin sign U+212A, the one character outside ASCII that lower-cases
      to an ASCII letter, are mapped; every other character is kept. */
  function ToLower(s: string): (r: string)
    ensures |r| == |s|
    ensures forall i :: 0 <= i < |s| ==> r[i] == LowerChar(s[i])
  {
    if s == [] then [] else [LowerChar(s[0])] + ToLower(s[1..])
  }

  function LowerChar(c: char): (r: char)
    ensures IsUpper(c) ==> IsLower(r) && r as int == c as int + 32
    ensures c == '\U{212A}' ==> r == 'k'
    ensures !IsUpper(c) && c != '\U{212A}' ==> r == c
  {
    if IsUpper(c) then (c as int - 'A' as int + 'a' as int) as char
    else if c == '\U{212A}' then 'k'
    else c
  }

  /** `s.length`: the number of UTF-16 code units, two for a character
      outside the Basic Multilingual Plane. */
  function Utf16Length(s: string): (n: nat)
    ensures |s| <= n <= 2 * |s|
    ensures (forall i :: 0 <= i < |s| ==> s[i] as int <= 0xFFFF) ==> n == |s|
    ensures (forall i :: 0 <= i < |s| ==> s[i] as int > 0xFFFF) ==> n == 2 * |s|
  {
    if s == [] then 0 else (if s[0] as int > 0xFFFF then 2 else 1) + Utf16Length(s[1..])
  }

  /** `s.replace(pat, rep)` with a string pattern: only the first occurrence is
      replaced. */
  function ReplaceFirst(s: string, pat: string, rep: string): (r: string)
    requires pat != []
    decreases |s|
  {
    if |s| < |pat| then s
    else if s[..|pat|] == pat then rep + s[|pat|..]
    else [s[0]] + ReplaceFirst(s[1..], pat, rep)
  }

  /** `pat` occurs in `s` at index `k`. */
  predicate OccursAt(s: string, pat: string, k: nat)
  {
    k + |pat| <= |s| && s[k..k + |pat|] == pat
  }

  /** When the pattern does not occur in `a` and `a + pat` does not contain an
      occurrence straddling the border, the first occurrence in `a + pat + b`
      is the one right after `a`. */
  lemma {:induction false} ReplaceFirstAfter(a: string, pat: string, rep: string, b: string)
    requires pat != []
    requires forall k :: 0 <= k < |a| ==> !OccursAt(a + pat, pat, k)
    ensures ReplaceFirst(a + pat + b, pat, rep) == a + rep + b
    decreases |a|
  {
    var s := a + pat + b;
    if a == [] {
      assert s == pat + b;
      assert s[..|pat|] == pat;
      assert s[|pat|..] == b;
    } else {
      assert !OccursAt(a + pat, pat, 0);
      assert s[..|pat|] == (a + pat)[0..|pat|];
      assert s[1..] == a[1..] + pat + b;
      forall k | 0 <= k < |a[1..]|
        ensures !OccursAt(a[1..] + pat, pat, k)
      {
        assert !OccursAt(a + pat, pat, k + 1);
        assert (a[1..] + pat)[k..k + |pat|] == (a + pat)[k + 1..k + 1 + |pat|];
      }
      ReplaceFirstAfter(a[1..], pat, rep, b);
      assert ReplaceFirst(s, pat, rep) == [a[0]] + (a[1..] + rep + b);
      assert [a[0]] + (a[1..] + rep + b) == a + rep + b;
    }
  }

  /** The suffix after the last `/`. */
  function AfterLastSlash(s: string): (r: string)
    ensures |r| <= |s| && r == s[|s| - |r|..]
    ensures forall i :: 0 <= i < |r| ==> r[i] != '/'
    ensures |r| < |s| ==> s[|s| - |r| - 1] == '/'
  {
    if s == [] || s[|s| - 1] == '/' then []
    else AfterLastSlash(s[..|s| - 1]) + [s[|s| - 1]]
  }

  function DropTrailingSlashes(s: string): (r: string)
    ensures |r| <= |s| && r == s[..|r|]
    ensures r == [] || r[|r| - 1] != '/'
  {
    if s != [] && s[|s| - 1] == '/' then DropTrailingSlashes(s[..|s| - 1]) else s
  }

  /** `path.basename(p)`: the last path segment, trailing separators ignored. */
  function Basename(p: string): (r: string)
    ensures forall i :: 0 <= i < |r| ==> r[i] != '/'
  {
    AfterLastSlash(DropTrailingSlashes(p))
  }

  /** The basename of `dir/name` is `name` whenever `name` has no separator. */
  lemma {:induction false} BasenameOfJoin(dir: string, name: string)
    requires name != []
    requires forall i :: 0 <= i < |name| ==> name[i] != '/'
    ensures Basename(dir + "/" + name) == name
    decreases |name|
  {
    var p := dir + "/" + name;
    assert DropTrailingSlashes(p) == p;
    AfterLastSlashJoin(dir + "/", name);
  }

  lemma {:induction false} AfterLastSlashJoin(d: string, name: string)
    requires d != [] && d[|d| - 1] == '/'
    requires forall i :: 0 <= i < |name| ==> name[i] != '/'
    ensures AfterLastSlash(d + name) == name
    decreases |name|
  {
    if name == [] {
      assert d + name == d;
    } else {
      var n := |name| - 1;
      var s := d + name;
      assert s[|s| - 1] == name[n];
      assert s[..|s| - 1] == d + name[..n];
      AfterLastSlashJoin(d, name[..n]);
      assert AfterLastSlash(s) == AfterLastSlash(d + name[..n]) + [name[n]];
      assert name == name[..n] + [name[n]];
    }
  }

  function DigitChar(d: nat): (c: char)
    requires d < 10
    ensures IsDigit(c)
  {
    ('0' as int + d) as char
  }

  function DigitValue(c: char): (d: nat)
    requires IsDigit(c)
    ensures d < 10
  {
    c as int - '0' as int
  }

  /** The value of a string of decimal digits, as `Number(s)` reads it. */
  function DigitsValue(s: string): nat
    requires forall i :: 0 <= i < |s| ==> IsDigit(s[i])
    decreases |s|
  {
    if s == [] then 0 else DigitsValue(s[..|s| - 1]) * 10 + DigitValue(s[|s| - 1])
  }

  /** `String(n)` for a non-negative integer. */
  function NatToString(n: nat): (r: string)
    ensures r != []
    ensures forall i :: 0 <= i < |r| ==> IsDigit(r[i])
    decreases n
  {
    if n < 10 then [DigitChar(n)] else NatToString(n / 10) + [DigitChar(n % 10)]
  }

  /** `String(n)` for any integer. */
  function IntToString(n: int): (r: string)
  {
    if n < 0 then "-" + NatToString(-n) else NatToString(n)
  }

  /** `s.padStart(2, '0')`. */
  function PadStart2(s: string): (r: string)
    ensures |r| == if |s| >= 2 then |s| else 2
    ensures s == r[|r| - |s|..]
  {
    if |s| >= 2 then s else if |s| == 1 then "0" + s else "00"
  }

  /** Reading back what `String(n)` wrote gives `n`. */
  lemma {:induction false} NatToStringRoundTrip(n: nat)
    ensures DigitsValue(NatToString(n)) == n
    decreases n
  {
    if n >= 10 {
      NatToStringRoundTrip(n / 10);
      var s := NatToString(n);
      assert s[..|s| - 1] == NatToString(n / 10);
    }
  }

  /** Stripping unsafe characters works piece by piece. */
  lemma {:induction false} KeepSafeAppend(a: string, b: string)
    ensures KeepSafe(a + b) == KeepSafe(a) + KeepSafe(b)
  {
    if a != [] {
      assert (a + b)[1..] == a[1..] + b;
      KeepSafeAppend(a[1..], b);
    } else {
      assert a + b == b;
    }
  }

  /** Leading whitespace is all that `TrimStart` removes. */
  lemma {:induction false} TrimStartSpaces(sp: string, x: string)
    requires AllSpace(sp)
    requires x == [] || !IsSpace(x[0])
    ensures TrimStart(sp + x) == x
  {
    if sp == [] {
      assert sp + x == x;
    } else {
      assert (sp + x)[1..] == sp[1..] + x;
      TrimStartSpaces(sp[1..], x);
    }
  }
}
