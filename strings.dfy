/**
 * The string operations the components rely on, as JavaScript defines them
 * for the inputs the model admits: ASCII case mapping, `includes`,
 * `startsWith`, `trim`, `split` on one character, `join`, decimal
 * formatting (`toString`, `padStart(2, '0')`) and `parseInt`.
 */
module Strings {
  import opened Wrappers

  predicate IsUpper(c: char) { 'A' <= c <= 'Z' }
  predicate IsLower(c: char) { 'a' <= c <= 'z' }
  predicate IsDigit(c: char) { '0' <= c <= '9' }

  /** `toUpperCase` on one character (ASCII letters only). */
  function UpperChar(c: char): (r: char)
    ensures IsLower(c) ==> IsUpper(r) && r as int == c as int - 32
    ensures !IsLower(c) ==> r == c
  {
    if IsLower(c) then (c as int - 32) as char else c
  }

  /** `toLowerCase` on one character (ASCII letters only). */
  function LowerChar(c: char): (r: char)
    ensures IsUpper(c) ==> IsLower(r) && r as int == c as int + 32
    ensures !IsUpper(c) ==> r == c
  {
    if IsUpper(c) then (c as int + 32) as char else c
  }

  /** `s.toLowerCase()`. */
  function Lower(s: string): (r: string)
    ensures |r| == |s|
    ensures forall i :: 0 <= i < |s| ==> r[i] == LowerChar(s[i])
  {
    seq(|s|, i requires 0 <= i < |s| => LowerChar(s[i]))
  }

  /** `s.toUpperCase()`. */
  function Upper(s: string): (r: string)
    ensures |r| == |s|
    ensures forall i :: 0 <= i < |s| ==> r[i] == UpperChar(s[i])
  {
    seq(|s|, i requires 0 <= i < |s| => UpperChar(s[i]))
  }

  /** `sub` occurs in `s` starting at index `i`. */
  predicate OccursAt(s: string, sub: string, i: int)
  {
    0 <= i && i + |sub| <= |s| && s[i..i + |sub|] == sub
  }

  /** `s.includes(sub)`. */
  predicate Contains(s: string, sub: string)
  {
    exists i | 0 <= i <= |s| - |sub| :: OccursAt(s, sub, i)
  }

  /** Every string includes the empty string. */
  lemma ContainsEmpty(s: string)
    ensures Contains(s, "")
  {
    assert OccursAt(s, "", 0);
  }

  /** `s.toLowerCase().includes(term.toLowerCase())`. */
  predicate IncludesIgnoringCase(s: string, term: string)
  {
    Contains(Lower(s), Lower(term))
  }

  /** Every string includes the empty term. */
  lemma EmptyTermIncluded(s: string)
    ensures IncludesIgnoringCase(s, "")
  {
    ContainsEmpty(Lower(s));
  }

  /** `s.startsWith(prefix)`. */
  predicate StartsWith(s: string, prefix: string)
  {
    |prefix| <= |s| && s[..|prefix|] == prefix
  }

  /** The characters `String.prototype.trim` removes: the white space of
   *  ECMAScript (tab, vertical tab, form feed, U+FEFF and the Unicode space
   *  separators) and its line terminators. */
  predicate IsSpace(c: char)
  {
    c == ' ' || c == '\t' || c == '\n' || c == '\r' || c == '\U{000B}' || c == '\U{000C}'
    || c == '\U{00A0}' || c == '\U{1680}' || ('\U{2000}' <= c <= '\U{200A}')
    || c == '\U{2028}' || c == '\U{2029}' || c == '\U{202F}' || c == '\U{205F}'
    || c == '\U{3000}' || c == '\U{FEFF}'
  }

  predicate IsBlank(s: string)
  {
    forall i :: 0 <= i < |s| ==> IsSpace(s[i])
  }

  /** The number of white-space characters `s` starts with. */
  function LeadingSpace(s: string): (n: nat)
    ensures n <= |s|
    ensures forall i :: 0 <= i < n ==> IsSpace(s[i])
    ensures n < |s| ==> !IsSpace(s[n])
  {
    if |s| > 0 && IsSpace(s[0]) then
      var n := 1 + LeadingSpace(s[1..]);
      assert forall i :: 1 <= i < n ==> s[i] == s[1..][i - 1];
      n
    else 0
  }

  /** Where the trailing white space of `s[lo..hi]` starts. */
  function TrailingStart(s: string, lo: nat, hi: nat): (n: nat)
    requires lo <= hi <= |s|
    ensures lo <= n <= hi
    ensures forall i :: n <= i < hi ==> IsSpace(s[i])
    ensures n > lo ==> !IsSpace(s[n - 1])
    decreases hi
  {
    if hi > lo && IsSpace(s[hi - 1]) then TrailingStart(s, lo, hi - 1) else hi
  }

  /** `s.trimStart()`. */
  function TrimStart(s: string): (r: string)
    ensures r == s[LeadingSpace(s)..]
  {
    s[LeadingSpace(s)..]
  }

  /** `s.length` in JavaScript: the number of UTF-16 code units, so a
   *  character above U+FFFF counts twice. */
  function Utf16Length(s: string): (n: nat)
    ensures |s| <= n <= 2 * |s|
    ensures (forall i :: 0 <= i < |s| ==> s[i] <= '\U{FFFF}') ==> n == |s|
  {
    if |s| == 0 then 0
    else
      var init := s[..|s| - 1];
      assert forall i :: 0 <= i < |init| ==> init[i] == s[i];
      Utf16Length(init) + (if s[|s| - 1] > '\U{FFFF}' then 2 else 1)
  }

  /** Code units add up over a concatenation. */
  lemma {:induction false} Utf16LengthAppend(a: string, b: string)
    ensures Utf16Length(a + b) == Utf16Length(a) + Utf16Length(b)
    decreases |b|
  {
    if |b| == 0 {
      assert a + b == a;
    } else {
      assert (a + b)[..|a + b| - 1] == a + b[..|b| - 1];
      Utf16LengthAppend(a, b[..|b| - 1]);
    }
  }

  /** `s.trim()`: drops the leading and trailing white space and keeps the
   *  middle of the string untouched. */
  function Trim(s: string): (r: string)
    ensures exists k ::
      && OccursAt(s, r, k)
      && (forall i :: 0 <= i < k ==> IsSpace(s[i]))
      && (forall i :: k + |r| <= i < |s| ==> IsSpace(s[i]))
    ensures |r| > 0 ==> !IsSpace(r[0]) && !IsSpace(r[|r| - 1])
    ensures r == "" <==> IsBlank(s)
  {
    var lo := LeadingSpace(s);
    var hi := TrailingStart(s, lo, |s|);
    var r := s[lo..hi];
    assert OccursAt(s, r, lo);
    assert r != "" ==> r[0] == s[lo] && r[|r| - 1] == s[hi - 1];
    assert r == "" ==> IsBlank(s) by {
      if r == "" {
        assert hi == lo;
        assert forall i :: 0 <= i < |s| ==> IsSpace(s[i]);
      }
    }
    r
  }

  /** `parts.join(sep)`. */
  function Join(parts: seq<string>, sep: string): string
  {
    if |parts| == 0 then ""
    else if |parts| == 1 then parts[0]
    else parts[0] + sep + Join(parts[1..], sep)
  }

  /** `parts.join("")`. */
  function Concat(parts: seq<string>): string
  {
    if |parts| == 0 then "" else parts[0] + Concat(parts[1..])
  }

  lemma {:induction false} ConcatAppend(a: seq<string>, b: seq<string>)
    ensures Concat(a + b) == Concat(a) + Concat(b)
  {
    if |a| == 0 {
      assert a + b == b;
    } else {
      assert (a + b)[1..] == a[1..] + b;
      ConcatAppend(a[1..], b);
      assert Concat(a + b) == a[0] + Concat(a[1..] + b);
    }
  }

  /** `s.split(c)` for a one-character separator: the pieces between the
   *  occurrences of `c`; "" splits into [""]. */
  function Split(s: string, c: char): (r: seq<string>)
    ensures |r| >= 1
  {
    if |s| == 0 then [""]
    else if s[0] == c then [""] + Split(s[1..], c)
    else
      var t := Split(s[1..], c);
      [[s[0]] + t[0]] + t[1..]
  }

  /** Number of occurrences of `c` in `s`. */
  function CountChar(s: string, c: char): nat
  {
    if |s| == 0 then 0 else (if s[0] == c then 1 else 0) + CountChar(s[1..], c)
  }

  /** Splitting and re-joining with the same separator gives back the
   *  string; there is one piece more than there are separators, and no
   *  piece holds the separator. */
  lemma {:induction false} SplitJoin(s: string, c: char)
    ensures Join(Split(s, c), [c]) == s
    ensures |Split(s, c)| == CountChar(s, c) + 1
    ensures forall k :: 0 <= k < |Split(s, c)| ==> c !in Split(s, c)[k]
  {
    if |s| > 0 {
      SplitJoin(s[1..], c);
      var t := Split(s[1..], c);
      if s[0] == c {
        assert Split(s, c) == [""] + t;
        assert s == [c] + s[1..];
        assert forall k :: 1 <= k < |Split(s, c)| ==> Split(s, c)[k] == t[k - 1];
      } else {
        var r := Split(s, c);
        assert r == [[s[0]] + t[0]] + t[1..];
        if |t| == 1 {
          assert Join(r, [c]) == [s[0]] + t[0];
        } else {
          assert r[1..] == t[1..];
          assert Join(t, [c]) == t[0] + [c] + Join(t[1..], [c]);
        }
        assert s == [s[0]] + s[1..];
        assert forall k :: 1 <= k < |r| ==> r[k] == t[k];
      }
    }
  }

  /** Joining pieces free of `c` with `c` and splitting on `c` again gives
   *  the pieces back. */
  lemma {:induction false} JoinSplit(ws: seq<string>, c: char)
    requires |ws| >= 1
    requires forall k :: 0 <= k < |ws| ==> c !in ws[k]
    ensures Split(Join(ws, [c]), c) == ws
  {
    if |ws| == 1 {
      SplitFree(ws[0], c);
    } else {
      JoinSplit(ws[1..], c);
      SplitPrefix(ws[0], Join(ws[1..], [c]), c);
      assert Join(ws, [c]) == ws[0] + ([c] + Join(ws[1..], [c]));
      assert [ws[0]] + ws[1..] == ws;
    }
  }

  /** A string without `c` splits into itself. */
  lemma {:induction false} SplitFree(w: string, c: char)
    requires c !in w
    ensures Split(w, c) == [w]
  {
    if |w| > 0 {
      SplitFree(w[1..], c);
      assert [w[0]] + w[1..] == w;
    }
  }

  /** Splitting `w + [c] + rest` for `w` free of `c`. */
  lemma {:induction false} SplitPrefix(w: string, rest: string, c: char)
    requires c !in w
    ensures Split(w + ([c] + rest), c) == [w] + Split(rest, c)
  {
    if |w| == 0 {
      assert w + ([c] + rest) == [c] + rest;
      assert ([c] + rest)[1..] == rest;
    } else {
      SplitPrefix(w[1..], rest, c);
      assert (w + ([c] + rest))[1..] == w[1..] + ([c] + rest);
      assert [w[0]] + w[1..] == w;
    }
  }

  /** `s.substring(0, n)`. */
  function Prefix(s: string, n: nat): (r: string)
    ensures |r| == if |s| < n then |s| else n
    ensures r == s[..|r|]
  {
    if |s| <= n then s else s[..n]
  }

  // ----- decimal numbers -------------------------------------------------

  function DigitChar(d: nat): (c: char)
    requires d < 10
    ensures IsDigit(c) && c as int - '0' as int == d
  {
    ('0' as int + d) as char
  }

  predicate AllDigits(s: string)
  {
    forall i :: 0 <= i < |s| ==> IsDigit(s[i])
  }

  /** `n.toString()` for a natural number. */
  function NatToString(n: nat): (r: string)
    ensures |r| >= 1 && AllDigits(r)
    ensures (|r| == 1) == (n < 10)
    decreases n
  {
    if n < 10 then [DigitChar(n)] else NatToString(n / 10) + [DigitChar(n % 10)]
  }

  /** `n.toString()` for an integer. */
  function IntToString(n: int): string
  {
    if n < 0 then "-" + NatToString(-n) else NatToString(n)
  }

  /** The value of a string of decimal digits. */
  function DigitsValue(s: string): nat
    requires AllDigits(s)
  {
    if |s| == 0 then 0 else DigitsValue(s[..|s| - 1]) * 10 + (s[|s| - 1] as int - '0' as int)
  }

  /** Reading back what `NatToString` wrote gives the number. */
  lemma {:induction false} NatToStringValue(n: nat)
    ensures DigitsValue(NatToString(n)) == n
    decreases n
  {
    if n >= 10 {
      NatToStringValue(n / 10);
      var s := NatToString(n);
      assert s[..|s| - 1] == NatToString(n / 10);
    }
  }

  /** `n.toString().padStart(2, '0')`. */
  function Pad2(n: nat): (r: string)
    ensures n < 100 ==> |r| == 2
    ensures AllDigits(r)
  {
    if n < 10 then "0" + NatToString(n) else NatToString(n)
  }

  /** Reading back a two-digit field gives the number. */
  lemma Pad2Value(n: nat)
    requires n < 100
    ensures DigitsValue(Pad2(n)) == n
  {
    NatToStringValue(n);
    if n < 10 {
      assert Pad2(n)[..1] == "0";
    }
  }

  /** The longest prefix of `s` made of decimal digits. */
  function DigitPrefix(s: string): (r: string)
    ensures |r| <= |s| && r == s[..|r|] && AllDigits(r)
    ensures |r| < |s| ==> !IsDigit(s[|r|])
  {
    if |s| > 0 && IsDigit(s[0]) then [s[0]] + DigitPrefix(s[1..]) else ""
  }

  lemma DigitPrefixAll(s: string)
    requires AllDigits(s)
    ensures DigitPrefix(s) == s
  {
  }

  /** `parseInt(s)` in base 10: leading white space is skipped, then an
   *  optional sign and the longest run of digits are read; None stands for
   *  NaN (no digit). A "0x" prefix is not given its hexadecimal meaning. */
  function ParseInt(s: string): (r: Option<int>)
  {
    var t := TrimStart(s);
    if |t| > 0 && (t[0] == '-' || t[0] == '+') then
      var d := DigitPrefix(t[1..]);
      var v: int := if |d| == 0 then 0 else DigitsValue(d);
      if |d| == 0 then None else if t[0] == '-' then Some(-v) else Some(v)
    else
      var d := DigitPrefix(t);
      if |d| == 0 then None else Some(DigitsValue(d))
  }

  /** A string of digits parses to its value. */
  lemma ParseIntDigits(s: string)
    requires |s| > 0 && AllDigits(s)
    ensures ParseInt(s) == Some(DigitsValue(s))
  {
    assert !IsSpace(s[0]);
    assert TrimStart(s) == s;
    DigitPrefixAll(s);
  }

  /** A minus sign followed by digits parses to the negated value. */
  lemma ParseMinus(t: string)
    requires |t| > 1 && t[0] == '-' && AllDigits(t[1..])
    ensures ParseInt(t) == Some(-(DigitsValue(t[1..]) as int))
  {
    assert !IsSpace(t[0]);
    assert TrimStart(t) == t;
    DigitPrefixAll(t[1..]);
  }

  /** `parseInt` reads back what `toString` wrote. */
  lemma ParseIntToString(n: int)
    ensures ParseInt(IntToString(n)) == Some(n)
  {
    var m: nat := if n < 0 then -n else n;
    NatToStringValue(m);
    if n < 0 {
      var t := IntToString(n);
      assert t[0] == '-' && t[1..] == NatToString(m);
      ParseMinus(t);
    } else {
      ParseIntDigits(NatToString(m));
    }
  }

  /** Text that fails to parse: nothing numeric at its start. */
  lemma ParseIntNoDigit(s: string)
    requires |s| > 0 && !IsDigit(s[0]) && !IsSpace(s[0]) && s[0] != '-' && s[0] != '+'
    ensures ParseInt(s) == None
  {
  }

  // ----- words -------------------------------------------------------------

  /** `w.charAt(0).toUpperCase() + w.slice(1).toLowerCase()`. */
  function Capitalize(w: string): (r: string)
    ensures |r| == |w|
  {
    if |w| == 0 then "" else [UpperChar(w[0])] + Lower(w[1..])
  }

  function CapitalizeAll(ws: seq<string>): (r: seq<string>)
    ensures |r| == |ws| && forall i :: 0 <= i < |ws| ==> r[i] == Capitalize(ws[i])
  {
    seq(|ws|, i requires 0 <= i < |ws| => Capitalize(ws[i]))
  }

  /** `s.split(c).map(Capitalize).join(' ')`. */
  function TitleWords(s: string, c: char): string
  {
    Join(CapitalizeAll(Split(s, c)), " ")
  }

  /** Capitalizing twice is capitalizing once. */
  lemma CapitalizeTwice(w: string)
    ensures Capitalize(Capitalize(w)) == Capitalize(w)
  {
    if |w| > 0 {
      var r := Capitalize(w);
      assert r[0] == UpperChar(w[0]) && r[1..] == Lower(w[1..]);
      assert Lower(r[1..]) == r[1..];
    }
  }

  /** Case mapping leaves every character that is not a letter where it
   *  was. */
  lemma CapitalizeKeeps(w: string, c: char)
    requires !IsUpper(c) && !IsLower(c)
    ensures c in Capitalize(w) <==> c in w
  {
    if |w| > 0 {
      var r := Capitalize(w);
      assert forall i :: 0 <= i < |w| ==> (r[i] == c <==> w[i] == c) by {
        forall i | 0 <= i < |w| ensures r[i] == c <==> w[i] == c {
          if i > 0 {
            assert r[i] == Lower(w[1..])[i - 1] == LowerChar(w[i]);
          }
        }
      }
    }
  }

  /** Joins of pieces of the same lengths with separators of the same
   *  length have the same length. */
  lemma {:induction false} JoinSameLength(a: seq<string>, b: seq<string>, sa: string, sb: string)
    requires |a| == |b| && |sa| == |sb|
    requires forall i :: 0 <= i < |a| ==> |a[i]| == |b[i]|
    ensures |Join(a, sa)| == |Join(b, sb)|
  {
    if |a| > 1 {
      JoinSameLength(a[1..], b[1..], sa, sb);
    }
  }

  /** Title-casing keeps the length: each piece keeps its length and each
   *  one-character separator becomes one space. */
  lemma TitleWordsLength(s: string, c: char)
    ensures |TitleWords(s, c)| == |s|
  {
    SplitJoin(s, c);
    JoinSameLength(CapitalizeAll(Split(s, c)), Split(s, c), " ", [c]);
  }

  /** A character absent from `s` is absent from every piece of its split. */
  lemma {:induction false} SplitPiecesFree(s: string, c: char, d: char)
    requires d !in s
    ensures forall k :: 0 <= k < |Split(s, c)| ==> d !in Split(s, c)[k]
  {
    if |s| > 0 {
      assert d != s[0] && d !in s[1..];
      SplitPiecesFree(s[1..], c, d);
      var t := Split(s[1..], c);
      if s[0] == c {
        assert forall k :: 1 <= k < |Split(s, c)| ==> Split(s, c)[k] == t[k - 1];
      } else {
        var r := Split(s, c);
        assert r[0] == [s[0]] + t[0];
        assert forall k :: 1 <= k < |r| ==> r[k] == t[k];
      }
    }
  }

  /** Title-casing yields the capitalized pieces, one per space-separated
   *  word of the result, provided the pieces hold no space themselves. */
  lemma TitleWordsSplit(s: string, c: char)
    requires c == ' ' || ' ' !in s
    ensures Split(TitleWords(s, c), ' ') == CapitalizeAll(Split(s, c))
  {
    var ws := Split(s, c);
    var cs := CapitalizeAll(ws);
    if c == ' ' {
      SplitJoin(s, c);
    } else {
      SplitPiecesFree(s, c, ' ');
    }
    forall k | 0 <= k < |cs| ensures ' ' !in cs[k] {
      CapitalizeKeeps(ws[k], ' ');
    }
    assert [' '] == " ";
    JoinSplit(cs, ' ');
  }

  /** Title-casing on spaces keeps the number of words and is idempotent. */
  lemma TitleWordsSpaces(s: string)
    ensures |Split(TitleWords(s, ' '), ' ')| == |Split(s, ' ')|
    ensures TitleWords(TitleWords(s, ' '), ' ') == TitleWords(s, ' ')
  {
    var ws := Split(s, ' ');
    var cs := CapitalizeAll(ws);
    TitleWordsSplit(s, ' ');
    forall k | 0 <= k < |cs| ensures Capitalize(cs[k]) == cs[k] {
      CapitalizeTwice(ws[k]);
    }
    assert CapitalizeAll(cs) == cs;
  }
}
