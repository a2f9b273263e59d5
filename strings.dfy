/** String helpers shared by the requirement and command models: suffix tests,
    column padding, Python's string ordering and sorting, and Python's `repr`
    of a `str`. */
module Strings {

  /** `s.endswith(suffix)` */
  predicate EndsWith(s: string, suffix: string)
  {
    |suffix| <= |s| && s[|s| - |suffix|..] == suffix
  }

  lemma EndsWithAppended(prefix: string, suffix: string)
    ensures EndsWith(prefix + suffix, suffix)
  {
    assert (prefix + suffix)[|prefix|..] == suffix;
  }

  /** A suffix test fails at once when the suffix is longer than the string. */
  lemma EndsWithTooLong(s: string, suffix: string)
    requires |s| < |suffix|
    ensures !EndsWith(s, suffix)
  {
  }

  function Spaces(n: nat): (r: string)
    ensures |r| == n && forall i :: 0 <= i < n ==> r[i] == ' '
  {
    if n == 0 then "" else " " + Spaces(n - 1)
  }

  /** `"{:{width}}".format(s)`: left-justify `s` in a column of `width`, never truncating. */
  function Pad(s: string, width: nat): (r: string)
    ensures |r| == if |s| < width then width else |s|
    ensures r[..|s|] == s
    ensures forall i :: |s| <= i < |r| ==> r[i] == ' '
  {
    if |s| < width then s + Spaces(width - |s|) else s
  }

  /** `s * k` */
  function Repeat(s: string, k: nat): (r: string)
    ensures |r| == k * |s|
  {
    if k == 0 then "" else s + Repeat(s, k - 1)
  }

  /** The concatenation of `lines`, each followed by a newline (one `print` per line). */
  function Lines(lines: seq<string>): string
  {
    if lines == [] then "" else lines[0] + "\n" + Lines(lines[1..])
  }

  /** The longest length among `names` (0 for none). */
  function MaxLength(names: seq<string>): (m: nat)
    ensures forall i :: 0 <= i < |names| ==> |names[i]| <= m
    ensures names != [] ==> exists i :: 0 <= i < |names| && |names[i]| == m
  {
    if names == [] then 0
    else
      var rest := MaxLength(names[1..]);
      if |names[0]| >= rest then |names[0]| else rest
  }

  // ---------------------------------------------------------------------
  // Python's ordering of `str` values: lexicographic by code point.

  predicate LexLess(a: string, b: string)
    decreases |a|
  {
    |b| > 0 && (|a| == 0 || a[0] < b[0] || (a[0] == b[0] && LexLess(a[1..], b[1..])))
  }

  lemma {:induction false} LexLessIrreflexive(a: string)
    ensures !LexLess(a, a)
    decreases |a|
  {
    if |a| > 0 {
      LexLessIrreflexive(a[1..]);
    }
  }

  lemma {:induction false} LexLessTransitive(a: string, b: string, c: string)
    requires LexLess(a, b) && LexLess(b, c)
    ensures LexLess(a, c)
    decreases |a|
  {
    if |a| > 0 && a[0] == b[0] && b[0] == c[0] {
      LexLessTransitive(a[1..], b[1..], c[1..]);
    }
  }

  lemma {:induction false} LexLessTotal(a: string, b: string)
    requires a != b
    ensures LexLess(a, b) || LexLess(b, a)
    decreases |a|
  {
    if |a| > 0 && |b| > 0 && a[0] == b[0] {
      assert a == [a[0]] + a[1..] && b == [b[0]] + b[1..];
      LexLessTotal(a[1..], b[1..]);
    }
  }

  lemma LexLessAsymmetric(a: string, b: string)
    requires LexLess(a, b)
    ensures !LexLess(b, a)
  {
    if LexLess(b, a) {
      LexLessTransitive(a, b, a);
      LexLessIrreflexive(a);
    }
  }

  /** `m` is the smallest string of `s`. */
  predicate IsLeast(m: string, s: set<string>)
  {
    m in s && forall x :: x in s && x != m ==> LexLess(m, x)
  }

  lemma {:induction false} LeastExists(s: set<string>)
    requires s != {}
    ensures exists m :: IsLeast(m, s)
    decreases |s|
  {
    var y :| y in s;
    if s == {y} {
      assert IsLeast(y, s);
    } else {
      LeastExists(s - {y});
      var m :| IsLeast(m, s - {y});
      if LexLess(y, m) {
        forall x | x in s && x != y
          ensures LexLess(y, x)
        {
          if x != m {
            LexLessTransitive(y, m, x);
          }
        }
        assert IsLeast(y, s);
      } else {
        LexLessTotal(y, m);
        forall x | x in s && x != m
          ensures LexLess(m, x)
        {
          if x != y {
            assert x in s - {y};
          }
        }
        assert IsLeast(m, s);
      }
    }
  }

  lemma LeastUnique(s: set<string>)
    ensures forall a, b :: IsLeast(a, s) && IsLeast(b, s) ==> a == b
  {
    forall a, b | IsLeast(a, s) && IsLeast(b, s)
      ensures a == b
    {
      if a != b {
        LexLessAsymmetric(a, b);
      }
    }
  }

  /** `sorted(s)`: the strings of `s` in ascending order, each once. */
  function SortedSet(s: set<string>): (r: seq<string>)
    ensures |r| == |s|
    ensures forall x :: x in r <==> x in s
    ensures forall i, j :: 0 <= i < j < |r| ==> LexLess(r[i], r[j])
    decreases |s|
  {
    if s == {} then []
    else
      LeastExists(s);
      LeastUnique(s);
      var m :| IsLeast(m, s);
      [m] + SortedSet(s - {m})
  }

  // ---------------------------------------------------------------------
  // Python's `repr` of a `str`

  /** A character that `repr` writes unchanged and that never needs escaping. */
  predicate IsPlain(c: char)
  {
    32 <= c as int < 127 && c != '\'' && c != '\\'
  }

  predicate AllPlain(s: string)
  {
    forall i :: 0 <= i < |s| ==> IsPlain(s[i])
  }

  lemma AllPlainConcat(a: string, b: string)
    requires AllPlain(a) && AllPlain(b)
    ensures AllPlain(a + b)
  {
    forall i | 0 <= i < |a + b|
      ensures IsPlain((a + b)[i])
    {
      if i >= |a| {
        assert (a + b)[i] == b[i - |a|];
      }
    }
  }

  function HexDigit(n: nat): char
    requires n < 16
  {
    if n < 10 then (48 + n) as char else (87 + n) as char
  }

  /** How `repr` writes one character inside a literal quoted with `quote`. */
  function EscapeChar(c: char, quote: char): string
  {
    if c == '\\' then "\\\\"
    else if c == quote then ['\\', c]
    else if c == '\n' then "\\n"
    else if c == '\r' then "\\r"
    else if c == '\t' then "\\t"
    else if c as int < 32 || c as int == 127 then ['\\', 'x', HexDigit(c as int / 16), HexDigit(c as int % 16)]
    else [c]
  }

  function EscapeBody(s: string, quote: char): string
  {
    if s == [] then "" else EscapeChar(s[0], quote) + EscapeBody(s[1..], quote)
  }

  lemma {:induction false} EscapeBodyPlain(s: string, quote: char)
    requires forall i :: 0 <= i < |s| ==> IsPlain(s[i]) && s[i] != quote
    ensures EscapeBody(s, quote) == s
  {
    if s != [] {
      EscapeBodyPlain(s[1..], quote);
    }
  }

  lemma PlainBody(s: string)
    ensures AllPlain(s) ==> EscapeBody(s, '\'') == s
  {
    if AllPlain(s) {
      EscapeBodyPlain(s, '\'');
    }
  }

  /** `repr(s)`: single quotes, unless `s` holds a single quote and no double quote;
      a string of plain characters is shown between single quotes exactly as it is. */
  function PythonRepr(s: string): (r: string)
    ensures |r| >= 2 && r[0] == r[|r| - 1]
    ensures r[0] == '"' <==> '\'' in s && '"' !in s
    ensures r[0] != '"' ==> r[0] == '\''
    ensures AllPlain(s) ==> r == "'" + s + "'"
  {
    PlainBody(s);
    var quote := if '\'' in s && '"' !in s then '"' else '\'';
    [quote] + EscapeBody(s, quote) + [quote]
  }
}
