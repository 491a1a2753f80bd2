/**
 * String primitives the JavaScript code relies on: `String.prototype.trim`,
 * `toUpperCase`, `split` with a one-character separator, and the
 * character classes `\s` and `\d` of its regular expressions.
 */
module Text {

  import opened Wrappers

  /** JavaScript's WhiteSpace and LineTerminator characters: what `trim`
      strips and what the regular-expression class `\s` matches. */
  predicate IsSpace(c: char)
  {
    c == ' ' || c == '\t' || c == '\n' || c == '\r' || c == '\U{000B}' || c == '\U{000C}'
    || c == '\U{00A0}' || c == '\U{1680}' || ('\U{2000}' <= c <= '\U{200A}')
    || c == '\U{2028}' || c == '\U{2029}' || c == '\U{202F}' || c == '\U{205F}'
    || c == '\U{3000}' || c == '\U{FEFF}'
  }

  /** The regular-expression class `\d` (ASCII digits only). */
  predicate IsDigit(c: char)
  {
    '0' <= c <= '9'
  }

  predicate AllSpace(s: string)
  {
    forall k :: 0 <= k < |s| ==> IsSpace(s[k])
  }

  predicate AllDigits(s: string)
  {
    forall k :: 0 <= k < |s| ==> IsDigit(s[k])
  }

  // ---------------------------------------------------------------- trim

  /** Drops the leading whitespace of `s`. */
  function TrimStart(s: string): (r: string)
    ensures |r| <= |s| && r == s[|s| - |r|..]
    ensures AllSpace(s[..|s| - |r|])
    ensures r == [] || !IsSpace(r[0])
  {
    if s != [] && IsSpace(s[0]) then TrimStart(s[1..]) else s
  }

  /** Drops the trailing whitespace of `s`. */
  function TrimEnd(s: string): (r: string)
    ensures |r| <= |s| && r == s[..|r|]
    ensures AllSpace(s[|r|..])
    ensures r == [] || !IsSpace(r[|r| - 1])
  {
    if s != [] && IsSpace(s[|s| - 1]) then TrimEnd(s[..|s| - 1]) else s
  }

  /** `s.trim()`: `s` without its leading and trailing whitespace. */
  function Trim(s: string): (r: string)
  {
    TrimEnd(TrimStart(s))
  }

  /** `s[i..j]` is what is left of `s` once the white space `s[..i]` and
      `s[j..]` are cut off. */
  predicate CutAt(s: string, i: int, j: int)
  {
    0 <= i <= j <= |s| && AllSpace(s[..i]) && AllSpace(s[j..])
  }

  /** Slicing a suffix of `s` is slicing `s`. */
  lemma SliceOfSuffix<T>(s: seq<T>, i: nat, k: nat)
    requires i + k <= |s|
    ensures s[i..][k..] == s[i + k..] && s[i..][..k] == s[i..i + k]
  {
  }

  /** `TrimStart` cuts exactly the leading run of whitespace. */
  lemma {:induction false} TrimStartAt(u: string, n: nat)
    requires n <= |u| && AllSpace(u[..n]) && (n == |u| || !IsSpace(u[n]))
    ensures TrimStart(u) == u[n..]
  {
    if n > 0 {
      var v := u[1..];
      assert IsSpace(u[0]) by { assert u[..n][0] == u[0]; }
      var w := v[..n - 1];
      assert AllSpace(w) by {
        forall j | 0 <= j < |w| ensures IsSpace(w[j]) { assert w[j] == u[..n][j + 1]; }
      }
      assert n - 1 == |v| || v[n - 1] == u[n];
      TrimStartAt(v, n - 1);
      assert v[n - 1..] == u[n..];
    }
  }

  /** `trim` returns a slice of `s` that neither starts nor ends with
      whitespace, and everything it cut off on either side is whitespace. */
  lemma TrimSlice(s: string)
    ensures exists i, j :: CutAt(s, i, j) && Trim(s) == s[i..j]
    ensures Trim(s) == [] || (!IsSpace(Trim(s)[0]) && !IsSpace(Trim(s)[|Trim(s)| - 1]))
  {
    var i := TrimCut(s);
    assert CutAt(s, i, i + |Trim(s)|);
  }

  /** The cut made by `trim` starts where `TrimStart` stopped. */
  lemma TrimCut(s: string) returns (i: nat)
    ensures i + |Trim(s)| <= |s| && CutAt(s, i, i + |Trim(s)|) && Trim(s) == s[i..i + |Trim(s)|]
    ensures Trim(s) != [] ==> Trim(s)[0] == TrimStart(s)[0]
  {
    var a := TrimStart(s);
    i := |s| - |a|;
    SliceOfSuffix(s, i, |Trim(s)|);
  }

  /** `trim` only cuts characters away, so a character absent from `s` is
      absent from `s.trim()`. */
  lemma TrimKeepsAbsent(s: string, c: char)
    requires c !in s
    ensures c !in Trim(s)
  {
    var i := TrimCut(s);
    forall k | 0 <= k < |Trim(s)| ensures Trim(s)[k] != c {
      assert Trim(s)[k] == s[i + k];
    }
  }

  /** A line is dropped by `filter(l => l.trim())` exactly when it is all
      whitespace. */
  lemma TrimEmptyIffBlank(s: string)
    ensures Trim(s) == [] <==> AllSpace(s)
  {
    if AllSpace(s) {
      TrimStartAllSpace(s);
    } else {
      var a := TrimStart(s);
      assert AllSpace(a[0..]) ==> a == [];
      assert s[..|s|] == s;
    }
  }

  /** Trimming an already trimmed string changes nothing. */
  lemma TrimIdempotent(s: string)
    ensures Trim(Trim(s)) == Trim(s)
  {
    var t := Trim(s);
    TrimSlice(s);
    assert t == [] || !IsSpace(t[0]);
    assert TrimStart(t) == t;
    assert t == [] || !IsSpace(t[|t| - 1]);
  }

  lemma {:induction false} TrimStartAllSpace(s: string)
    requires AllSpace(s)
    ensures TrimStart(s) == []
  {
    if s != [] {
      TrimStartAllSpace(s[1..]);
    }
  }

  // ---------------------------------------------------------- upper case

  /** A lower-case letter of the alphabets the data uses: ASCII, Latin-1,
      Russian and the Cyrillic letters of Kazakh. */
  predicate IsLower(c: char)
  {
    ('a' <= c <= 'z')
    || ('\U{00E0}' <= c <= '\U{00FE}' && c != '\U{00F7}')
    || ('\U{0430}' <= c <= '\U{045F}')
    || ('\U{0461}' <= c <= '\U{0481}' && (c as int) % 2 == 1)
    || ('\U{048B}' <= c <= '\U{04BF}' && (c as int) % 2 == 1)
    || ('\U{04C2}' <= c <= '\U{04CE}' && (c as int) % 2 == 0)
    || ('\U{04D1}' <= c <= '\U{04FF}' && (c as int) % 2 == 1)
  }

  /** `toUpperCase` of one character, following Unicode's simple case
      mapping on the alphabets of `IsLower`. */
  function UpperChar(c: char): (u: char)
    ensures !IsLower(u)
    ensures !IsLower(c) ==> u == c
  {
    if 'a' <= c <= 'z' then (c as int - 32) as char
    else if '\U{00E0}' <= c <= '\U{00FE}' && c != '\U{00F7}' then (c as int - 32) as char
    else if '\U{0430}' <= c <= '\U{044F}' then (c as int - 32) as char
    else if '\U{0450}' <= c <= '\U{045F}' then (c as int - 80) as char
    else if IsLower(c) then (c as int - 1) as char
    else c
  }

  /** `s.toUpperCase()`, character by character. */
  function ToUpper(s: string): (r: string)
    ensures |r| == |s|
    ensures forall k :: 0 <= k < |s| ==> r[k] == UpperChar(s[k])
  {
    if s == [] then [] else [UpperChar(s[0])] + ToUpper(s[1..])
  }

  /** Upper-casing twice changes nothing more. */
  lemma ToUpperIdempotent(s: string)
    ensures ToUpper(ToUpper(s)) == ToUpper(s)
  {
    assert forall k :: 0 <= k < |s| ==> ToUpper(ToUpper(s))[k] == ToUpper(s)[k];
  }

  /** Upper-casing leaves digits, whitespace and the sign '№' alone. */
  lemma ToUpperKeeps(s: string)
    requires forall k :: 0 <= k < |s| ==> IsDigit(s[k]) || IsSpace(s[k]) || s[k] == '№'
    ensures ToUpper(s) == s
  {
    forall k | 0 <= k < |s| ensures ToUpper(s)[k] == s[k] {
      NotLower(s[k]);
    }
  }

  /** Digits, whitespace and '№' are not lower-case letters. */
  lemma NotLower(c: char)
    requires IsDigit(c) || IsSpace(c) || c == '№'
    ensures !IsLower(c)
  {
  }

  // --------------------------------------------------------------- split

  /** `s.split(sep)` for a one-character separator: the pieces between
      separators, always at least one (`"".split(sep)` is `[""]`). */
  function Split(s: string, sep: char): (r: seq<string>)
    ensures |r| >= 1
    ensures forall k :: 0 <= k < |r| ==> sep !in r[k]
  {
    if s == [] then [[]]
    else if s[0] == sep then [[]] + Split(s[1..], sep)
    else
      var rest := Split(s[1..], sep);
      [[s[0]] + rest[0]] + rest[1..]
  }

  /** `parts.join(sep)`. */
  function Join(parts: seq<string>, sep: char): string
    requires |parts| >= 1
  {
    if |parts| == 1 then parts[0] else parts[0] + [sep] + Join(parts[1..], sep)
  }

  /** Joining the pieces of a split gives the original string back. */
  lemma {:induction false} JoinSplit(s: string, sep: char)
    ensures Join(Split(s, sep), sep) == s
  {
    if s == [] {
    } else if s[0] == sep {
      JoinSplit(s[1..], sep);
      assert s == [sep] + s[1..];
    } else {
      JoinSplit(s[1..], sep);
      var rest := Split(s[1..], sep);
      if |rest| == 1 {
        assert s == [s[0]] + rest[0];
      } else {
        assert Join(rest, sep) == rest[0] + [sep] + Join(rest[1..], sep);
        assert s == [s[0]] + s[1..];
      }
    }
  }

  /** Splitting a join of separator-free pieces gives the pieces back. */
  lemma {:induction false} SplitJoin(parts: seq<string>, sep: char)
    requires |parts| >= 1
    requires forall k :: 0 <= k < |parts| ==> sep !in parts[k]
    ensures Split(Join(parts, sep), sep) == parts
  {
    if |parts| == 1 {
      SplitNoSep(parts[0], sep);
    } else {
      SplitJoin(parts[1..], sep);
      SplitPrefix(parts[0], Join(parts[1..], sep), sep);
      assert parts == [parts[0]] + parts[1..];
    }
  }

  lemma {:induction false} SplitNoSep(s: string, sep: char)
    requires sep !in s
    ensures Split(s, sep) == [s]
  {
    if s != [] {
      SplitNoSep(s[1..], sep);
      assert [s[0]] + s[1..] == s;
    }
  }

  lemma {:induction false} SplitPrefix(a: string, b: string, sep: char)
    requires sep !in a
    ensures Split(a + [sep] + b, sep) == [a] + Split(b, sep)
  {
    if a == [] {
      assert a + [sep] + b == [sep] + b;
    } else {
      SplitPrefix(a[1..], b, sep);
      assert (a + [sep] + b)[1..] == a[1..] + [sep] + b;
      assert (a + [sep] + b)[0] == a[0];
      assert [a[0]] + a[1..] == a;
    }
  }

  /** `(parts[i] || "")`: a missing field reads as the empty string. */
  function FieldOr(parts: seq<string>, i: nat): (r: string)
    ensures i < |parts| ==> r == parts[i]
    ensures i >= |parts| ==> r == ""
  {
    if i < |parts| then parts[i] else ""
  }

  /** Field `i` of a line written from separator-free fields is field `i`
      itself, and a field beyond the last reads as "". */
  lemma FieldOrOfJoin(parts: seq<string>, sep: char, i: nat)
    requires |parts| >= 1
    requires forall k :: 0 <= k < |parts| ==> sep !in parts[k]
    ensures FieldOr(Split(Join(parts, sep), sep), i) == if i < |parts| then parts[i] else ""
  {
    SplitJoin(parts, sep);
  }

  /** A field read from a split never holds the separator. */
  lemma FieldOrNoSep(s: string, sep: char, i: nat)
    ensures sep !in FieldOr(Split(s, sep), i)
  {
  }

  /** The elements of `s` that satisfy `keep`, in order (`Array.prototype.filter`). */
  function Filter<T>(s: seq<T>, keep: T -> bool): (r: seq<T>)
    ensures |r| <= |s|
  {
    if s == [] then [] else (if keep(s[0]) then [s[0]] else []) + Filter(s[1..], keep)
  }

  /** `filter` keeps exactly the elements that satisfy `keep`. */
  lemma {:induction false} FilterMembers<T(!new)>(s: seq<T>, keep: T -> bool)
    ensures forall x :: x in Filter(s, keep) <==> x in s && keep(x)
  {
    if s != [] {
      FilterMembers(s[1..], keep);
      assert s == [s[0]] + s[1..];
    }
  }

  lemma {:induction false} FilterAppend<T>(a: seq<T>, b: seq<T>, keep: T -> bool)
    ensures Filter(a + b, keep) == Filter(a, keep) + Filter(b, keep)
  {
    if a == [] {
      assert a + b == b;
    } else {
      var h := if keep(a[0]) then [a[0]] else [];
      calc {
        Filter(a + b, keep);
        { assert (a + b)[0] == a[0]; assert (a + b)[1..] == a[1..] + b; }
        h + Filter(a[1..] + b, keep);
        { FilterAppend(a[1..], b, keep); }
        h + (Filter(a[1..], keep) + Filter(b, keep));
        (h + Filter(a[1..], keep)) + Filter(b, keep);
      }
    }
  }

  /** `text.split("\n").filter(l => l.trim())`: the lines that are not blank. */
  function NonBlankLines(text: string): (lines: seq<string>)
    ensures forall l :: l in lines <==> l in Split(text, '\n') && Trim(l) != ""
  {
    FilterMembers(Split(text, '\n'), (l: string) => Trim(l) != "");
    Filter(Split(text, '\n'), (l: string) => Trim(l) != "")
  }

  // -------------------------------------------------------------- digits

  /** Length of the run of digits at the start of `s`. */
  function DigitRunLength(s: string): (n: nat)
    ensures n <= |s| && AllDigits(s[..n])
    ensures n == |s| || !IsDigit(s[n])
  {
    if s != [] && IsDigit(s[0]) then 1 + DigitRunLength(s[1..]) else 0
  }

  /** Index of the first digit of `s`, or `|s|` when there is none. */
  function FirstDigitIndex(s: string): (i: nat)
    ensures i <= |s|
    ensures forall k :: 0 <= k < i ==> !IsDigit(s[k])
    ensures i < |s| ==> IsDigit(s[i])
  {
    if s == [] || IsDigit(s[0]) then 0 else 1 + FirstDigitIndex(s[1..])
  }

  /** `s.match(/(\d+)/)[1]`: the first maximal run of digits in `s`, or
      `None` (the script's `null`) when `s` has no digit. The run starts at
      the first digit and ends at a non-digit or at the end of `s`. */
  function FirstDigitRun(s: string): (r: Option<string>)
    ensures r.None? <==> forall k :: 0 <= k < |s| ==> !IsDigit(s[k])
    ensures r.Some? ==> r.value != [] && AllDigits(r.value)
    ensures r.Some? ==>
              && FirstDigitIndex(s) + |r.value| <= |s|
              && r.value == s[FirstDigitIndex(s)..FirstDigitIndex(s) + |r.value|]
              && (FirstDigitIndex(s) + |r.value| == |s| || !IsDigit(s[FirstDigitIndex(s) + |r.value|]))
  {
    var i := FirstDigitIndex(s);
    if i == |s| then None
    else
      var n := DigitRunLength(s[i..]);
      assert s[i..][..n] == s[i..i + n];
      Some(s[i..i + n])
  }

  /** When nothing before `k` is a digit and `s[k..]` is all digits, the
      first run of digits is `s[k..]`. */
  lemma FirstDigitRunIsSuffix(s: string, k: nat)
    requires k < |s| && AllDigits(s[k..])
    requires forall j :: 0 <= j < k ==> !IsDigit(s[j])
    ensures FirstDigitRun(s) == Some(s[k..])
  {
    assert s[k..][0] == s[k];
    assert FirstDigitIndex(s) == k;
    var n := FirstDigitRun(s).value;
    assert k + |n| == |s|;
    assert s[k..k + |n|] == s[k..];
  }

}
