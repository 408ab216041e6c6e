/** Character-level building blocks for the string handling of the system:
    whitespace (`\s`, `str.strip`), ASCII case folding (`str.lower`),
    substring search (`in`, `find`, `rfind`), `str.replace`, `str.split`,
    `str.join`, the digit scanners behind the regular expressions, Python's
    string order and integer formatting. Everything is over ASCII. */
module Text {
  import Seqs
  import opened Wrappers

  /** ASCII whitespace: space, tab, newline, vertical tab, form feed, carriage return. */
  predicate IsSpace(c: char) {
    c == ' ' || '\t' <= c <= '\r'
  }

  predicate IsUpper(c: char) {
    'A' <= c <= 'Z'
  }

  predicate IsDigit(c: char) {
    '0' <= c <= '9'
  }

  function LowerChar(c: char): (d: char)
    ensures !IsUpper(d)
    ensures IsSpace(d) <==> IsSpace(c)
    ensures !IsUpper(c) ==> d == c
  {
    if IsUpper(c) then (c as int + 32) as char else c
  }

  /** `str.lower()` on ASCII. */
  function Lower(s: string): (r: string)
    ensures |r| == |s|
    ensures forall i :: 0 <= i < |s| ==> r[i] == LowerChar(s[i])
  {
    seq(|s|, i requires 0 <= i < |s| => LowerChar(s[i]))
  }

  /** No character of a lowered text is upper-case. */
  lemma LowerMember(s: string, x: char)
    requires x in Lower(s)
    ensures !IsUpper(x)
  {
    var k :| 0 <= k < |Lower(s)| && Lower(s)[k] == x;
  }

  /** Drops leading whitespace. */
  function TrimStart(s: string): (r: string)
    ensures |r| <= |s| && r == s[|s| - |r|..]
    ensures r == [] || !IsSpace(r[0])
    ensures forall i :: 0 <= i < |s| - |r| ==> IsSpace(s[i])
  {
    if s != [] && IsSpace(s[0]) then TrimStart(s[1..]) else s
  }

  /** Drops trailing whitespace. */
  function TrimEnd(s: string): (r: string)
    ensures |r| <= |s| && r == s[..|r|]
    ensures r == [] || !IsSpace(r[|r| - 1])
    ensures forall i :: |r| <= i < |s| ==> IsSpace(s[i])
  {
    if s != [] && IsSpace(s[|s| - 1]) then TrimEnd(s[..|s| - 1]) else s
  }

  /** `str.strip()`: the text between the first and the last non-space character. */
  function Strip(s: string): (r: string)
    ensures r == [] || (!IsSpace(r[0]) && !IsSpace(r[|r| - 1]))
    ensures |r| <= |s|
  {
    TrimEnd(TrimStart(s))
  }

  /** A string that is empty or begins and ends with a non-space character. */
  predicate IsTrimmed(s: string) {
    s == [] || (!IsSpace(s[0]) && !IsSpace(s[|s| - 1]))
  }

  lemma StripTrimmed(s: string)
    requires IsTrimmed(s)
    ensures Strip(s) == s
  {
  }

  /** The stripped text is the slice of the original that starts after the
      leading whitespace. */
  lemma StripIsSlice(s: string)
    ensures var d := |s| - |TrimStart(s)|;
            d + |Strip(s)| <= |s| && Strip(s) == s[d..d + |Strip(s)|]
  {
    var ts := TrimStart(s);
    SliceOfSlice(s, ts, TrimEnd(ts), |s| - |ts|);
  }

  /** A prefix of a suffix is a slice. */
  lemma SliceOfSlice(s: string, t: string, r: string, d: nat)
    requires d <= |s| && t == s[d..] && |r| <= |t| && r == t[..|r|]
    ensures d + |r| <= |s| && r == s[d..d + |r|]
  {
  }

  /** A non-space character of the text keeps its place in the stripped
      text, shifted by the leading whitespace. */
  lemma StripKeepsAt(s: string, k: nat)
    requires k < |s| && !IsSpace(s[k])
    ensures var d := |s| - |TrimStart(s)|;
            d <= k < d + |Strip(s)| && Strip(s)[k - d] == s[k]
  {
    var t := TrimStart(s);
    var d := |s| - |t|;
    assert t == s[d..];
    assert t[k - d] == s[k];
    assert Strip(s) == TrimEnd(t);
  }

  /** Every character of the stripped text occurs in the text, and every
      non-space character of the text survives stripping. */
  lemma StripChars(s: string, c: char)
    ensures c in Strip(s) ==> c in s
    ensures !IsSpace(c) && c in s ==> c in Strip(s)
  {
    StripIsSlice(s);
    if !IsSpace(c) && c in s {
      var k :| 0 <= k < |s| && s[k] == c;
      StripKeepsAt(s, k);
    }
  }

  /** Stripping keeps every non-space character: a string whose stripped form
      is empty contains only whitespace. */
  lemma {:induction false} StripEmpty(s: string)
    requires Strip(s) == []
    ensures forall i :: 0 <= i < |s| ==> IsSpace(s[i])
  {
    var t := TrimStart(s);
    assert TrimEnd(t) == [];
    assert t == [];
  }

  /** Stripping `lead + body + tail` where `lead` is whitespace and `body`
      begins and ends with a non-space character keeps all of `body`. */
  lemma {:induction false} StripKeepsBody(lead: string, body: string, tail: string)
    requires forall i :: 0 <= i < |lead| ==> IsSpace(lead[i])
    requires body != [] && !IsSpace(body[0]) && !IsSpace(body[|body| - 1])
    ensures body <= Strip(lead + body + tail)
  {
    assert lead + body + tail == lead + (body + tail);
    TrimStartSpaces(lead, body + tail);
    TrimEndKeeps(body, tail);
  }

  /** Trimming the end never cuts into a prefix that ends in a non-space. */
  lemma {:induction false} TrimEndKeeps(body: string, tail: string)
    requires body != [] && !IsSpace(body[|body| - 1])
    ensures body <= TrimEnd(body + tail)
    decreases |tail|
  {
    if tail == [] {
      assert body + tail == body;
    } else {
      var s := body + tail;
      if IsSpace(tail[|tail| - 1]) {
        assert s[..|s| - 1] == body + tail[..|tail| - 1];
        TrimEndKeeps(body, tail[..|tail| - 1]);
      }
    }
  }

  lemma {:induction false} TrimStartSpaces(lead: string, rest: string)
    requires forall i :: 0 <= i < |lead| ==> IsSpace(lead[i])
    requires rest != [] && !IsSpace(rest[0])
    ensures TrimStart(lead + rest) == rest
  {
    if lead != [] {
      assert (lead + rest)[1..] == lead[1..] + rest;
      TrimStartSpaces(lead[1..], rest);
    } else {
      assert lead + rest == rest;
    }
  }

  /** `re.sub(r"\s+", " ", s)`: every maximal run of whitespace becomes one space. */
  function CollapseSpaces(s: string): (r: string)
    ensures r == [] <==> s == []
    ensures s != [] && !IsSpace(s[0]) ==> r[0] == s[0]
    decreases |s|
  {
    if s == [] then []
    else if IsSpace(s[0]) then " " + CollapseSpaces(TrimStart(s[1..]))
    else [s[0]] + CollapseSpaces(s[1..])
  }

  /** The shape `CollapseSpaces` leaves behind: every whitespace character is a
      plain space and no two of them are adjacent. */
  predicate SpacesCollapsed(s: string) {
    && (forall i :: 0 <= i < |s| && IsSpace(s[i]) ==> s[i] == ' ')
    && (forall i :: 0 <= i < |s| - 1 ==> !(IsSpace(s[i]) && IsSpace(s[i + 1])))
  }

  lemma {:induction false} CollapseSpacesShape(s: string)
    ensures SpacesCollapsed(CollapseSpaces(s))
    decreases |s|
  {
    if s != [] {
      var r := CollapseSpaces(s);
      if IsSpace(s[0]) {
        var t := TrimStart(s[1..]);
        CollapseSpacesShape(t);
        var c := CollapseSpaces(t);
        assert r == " " + c;
        if t != [] {
          assert c[0] == t[0];
        }
        forall i | 0 <= i < |r| - 1 ensures !(IsSpace(r[i]) && IsSpace(r[i + 1])) {
          if i > 0 {
            assert r[i] == c[i - 1] && r[i + 1] == c[i];
          }
        }
      } else {
        CollapseSpacesShape(s[1..]);
        var c := CollapseSpaces(s[1..]);
        assert r == [s[0]] + c;
        forall i | 0 <= i < |r| - 1 ensures !(IsSpace(r[i]) && IsSpace(r[i + 1])) {
          if i > 0 {
            assert r[i] == c[i - 1] && r[i + 1] == c[i];
          }
        }
      }
    }
  }

  /** Every character `CollapseSpaces` emits is a space or a non-space
      character of its input. */
  lemma {:induction false} CollapseSpacesChars(s: string)
    ensures forall i :: 0 <= i < |CollapseSpaces(s)| ==>
              CollapseSpaces(s)[i] == ' ' || CollapseSpaces(s)[i] in s
    decreases |s|
  {
    if s != [] {
      var r := CollapseSpaces(s);
      if IsSpace(s[0]) {
        var t := TrimStart(s[1..]);
        CollapseSpacesChars(t);
        assert r == " " + CollapseSpaces(t);
        assert forall x :: x in t ==> x in s;
      } else {
        CollapseSpacesChars(s[1..]);
        assert r == [s[0]] + CollapseSpaces(s[1..]);
        assert forall x :: x in s[1..] ==> x in s;
      }
    }
  }

  /** Dropping leading whitespace keeps a non-space last character. */
  lemma TrimStartLast(u: string)
    requires u != [] && !IsSpace(u[|u| - 1])
    ensures TrimStart(u) != [] && TrimStart(u)[|TrimStart(u)| - 1] == u[|u| - 1]
  {
    var t := TrimStart(u);
    assert t == u[|u| - |t|..];
  }

  /** A non-space last character survives as the last character. */
  lemma {:induction false} CollapseSpacesLast(s: string)
    requires s != [] && !IsSpace(s[|s| - 1])
    ensures !IsSpace(CollapseSpaces(s)[|CollapseSpaces(s)| - 1])
    decreases |s|
  {
    if IsSpace(s[0]) {
      assert |s| >= 2 by {
        assert s[0] != s[|s| - 1];
      }
      var u := s[1..];
      assert u[|u| - 1] == s[|s| - 1];
      TrimStartLast(u);
      var t := TrimStart(u);
      CollapseSpacesLast(t);
      assert CollapseSpaces(s) == " " + CollapseSpaces(t);
    } else if |s| > 1 {
      var u := s[1..];
      assert u[|u| - 1] == s[|s| - 1];
      CollapseSpacesLast(u);
      assert CollapseSpaces(s) == [s[0]] + CollapseSpaces(u);
    }
  }

  /** A string already in collapsed shape is left unchanged. */
  lemma {:induction false} CollapseSpacesFixed(s: string)
    requires SpacesCollapsed(s)
    ensures CollapseSpaces(s) == s
    decreases |s|
  {
    if s != [] {
      assert SpacesCollapsed(s[1..]) by {
        forall i | 0 <= i < |s[1..]| && IsSpace(s[1..][i]) ensures s[1..][i] == ' ' {
          assert s[1..][i] == s[i + 1];
        }
        forall i | 0 <= i < |s[1..]| - 1 ensures !(IsSpace(s[1..][i]) && IsSpace(s[1..][i + 1])) {
          assert s[1..][i] == s[i + 1] && s[1..][i + 1] == s[i + 2];
        }
      }
      CollapseSpacesFixed(s[1..]);
      if IsSpace(s[0]) {
        assert s[0] == ' ';
        if |s| > 1 {
          assert !IsSpace(s[1]);
        }
        assert TrimStart(s[1..]) == s[1..];
        assert s == " " + s[1..];
      } else {
        assert s == [s[0]] + s[1..];
      }
    }
  }

  /** `q in s` for strings: `q` occurs in `s` as a contiguous piece. */
  predicate IsSubstring(q: string, s: string)
    decreases |s|
  {
    q <= s || (s != [] && IsSubstring(q, s[1..]))
  }

  lemma {:induction false} SubstringAt(q: string, s: string, i: nat)
    requires i + |q| <= |s| && s[i..i + |q|] == q
    ensures IsSubstring(q, s)
    decreases i
  {
    if i == 0 {
      assert q == s[..|q|];
    } else {
      assert s[1..][i - 1..i - 1 + |q|] == s[i..i + |q|];
      SubstringAt(q, s[1..], i - 1);
    }
  }

  /** `pat` occurs in `s` starting at index `j`. */
  predicate OccursAt(s: string, pat: string, j: nat)
    requires j <= |s|
  {
    pat <= s[j..]
  }

  /** A slice holds no occurrence of `pat` when none starts inside it. */
  lemma NoOccurrenceInSlice(s: string, pat: string, lo: nat, hi: nat, t: string)
    requires lo <= hi <= |s| && pat != [] && t == s[lo..hi]
    requires forall j :: lo <= j < hi ==> !OccursAt(s, pat, j)
    ensures forall j :: 0 <= j <= |t| ==> !OccursAt(t, pat, j)
  {
    forall j | 0 <= j <= |t| ensures !OccursAt(t, pat, j) {
      assert t[j..] == s[lo + j..hi];
      if j < hi - lo {
        assert !OccursAt(s, pat, lo + j);
        assert s[lo + j..hi] == s[lo + j..][..hi - lo - j];
      }
    }
  }

  /** Stripping a text without an occurrence of `pat` leaves none. */
  lemma NoOccurrenceStrip(x: string, pat: string)
    requires pat != []
    requires forall j :: 0 <= j <= |x| ==> !OccursAt(x, pat, j)
    ensures forall j :: 0 <= j <= |Strip(x)| ==> !OccursAt(Strip(x), pat, j)
  {
    StripIsSlice(x);
    var d := |x| - |TrimStart(x)|;
    NoOccurrenceInSlice(x, pat, d, d + |Strip(x)|, Strip(x));
  }

  /** A text occurs inside any text that surrounds it. */
  lemma SubstringOfConcat(a: string, q: string, b: string)
    ensures IsSubstring(q, a + q + b)
  {
    var s := a + q + b;
    assert s[|a|..|a| + |q|] == q;
    SubstringAt(q, s, |a|);
  }

  /** A substring of a prefix is a substring of the whole. */
  lemma {:induction false} SubstringOfPrefix(q: string, p: string, s: string)
    requires IsSubstring(q, p) && p <= s
    ensures IsSubstring(q, s)
    decreases |p|
  {
    if !(q <= p) {
      assert p[1..] <= s[1..];
      SubstringOfPrefix(q, p[1..], s[1..]);
    }
  }

  /** A text occurs inside any text it ends. */
  lemma {:induction false} SubstringOfSuffix(q: string, a: string, t: string)
    requires IsSubstring(q, t)
    ensures IsSubstring(q, a + t)
    decreases |a|
  {
    if a != [] {
      assert (a + t)[1..] == a[1..] + t;
      SubstringOfSuffix(q, a[1..], t);
    } else {
      assert a + t == t;
    }
  }

  /** The concatenation of the pieces, in order (a formatted string literal
      is the concatenation of its fixed and interpolated parts). */
  function Concat(pieces: seq<string>): (r: string)
    ensures |r| >= (if pieces == [] then 0 else |pieces[0]|)
  {
    if pieces == [] then [] else pieces[0] + Concat(pieces[1..])
  }

  /** Each piece occurs in the concatenation. */
  lemma {:induction false} PieceSubstring(pieces: seq<string>, k: nat)
    requires k < |pieces|
    ensures IsSubstring(pieces[k], Concat(pieces))
  {
    if k == 0 {
      SubstringOfConcat([], pieces[0], Concat(pieces[1..]));
      assert [] + pieces[0] + Concat(pieces[1..]) == Concat(pieces);
    } else {
      PieceSubstring(pieces[1..], k - 1);
      SubstringOfSuffix(pieces[k], pieces[0], Concat(pieces[1..]));
    }
  }

  /** A piece occurs in any text that the concatenation begins. */
  lemma PieceInPrefixed(pieces: seq<string>, k: nat, s: string)
    requires k < |pieces| && Concat(pieces) <= s
    ensures IsSubstring(pieces[k], s)
  {
    PieceSubstring(pieces, k);
    SubstringOfPrefix(pieces[k], Concat(pieces), s);
  }

  /** A concatenation ends with the last character of its last piece. */
  lemma {:induction false} ConcatLast(pieces: seq<string>)
    requires pieces != [] && pieces[|pieces| - 1] != []
    ensures Concat(pieces) != []
    ensures Concat(pieces)[|Concat(pieces)| - 1] == pieces[|pieces| - 1][|pieces[|pieces| - 1]| - 1]
  {
    if |pieces| > 1 {
      ConcatLast(pieces[1..]);
    }
  }

  /** A concatenation begins with the first character of its first piece. */
  lemma ConcatFirst(pieces: seq<string>)
    requires pieces != [] && pieces[0] != []
    ensures Concat(pieces) != [] && Concat(pieces)[0] == pieces[0][0]
  {
    assert Concat(pieces) == pieces[0] + Concat(pieces[1..]);
  }

  /** A concatenation whose first piece begins and last piece ends with a
      non-space character is trimmed and non-empty. */
  lemma ConcatTrimmed(pieces: seq<string>)
    requires pieces != [] && pieces[0] != [] && pieces[|pieces| - 1] != []
    requires !IsSpace(pieces[0][0]) && !IsSpace(pieces[|pieces| - 1][|pieces[|pieces| - 1]| - 1])
    ensures var c := Concat(pieces); c != [] && !IsSpace(c[0]) && !IsSpace(c[|c| - 1])
  {
    ConcatFirst(pieces);
    ConcatLast(pieces);
  }

  /** `s.find(c)` for one character: the first index holding `c`. */
  function FindChar(s: string, c: char): (r: Option<nat>)
    ensures r.Some? ==> r.value < |s| && s[r.value] == c && forall j :: 0 <= j < r.value ==> s[j] != c
    ensures r.None? ==> forall j :: 0 <= j < |s| ==> s[j] != c
  {
    if s == [] then None
    else if s[0] == c then Some(0)
    else match FindChar(s[1..], c)
      case None => None
      case Some(i) => Some(i + 1)
  }

  /** `s.rfind(c)` for one character: the last index holding `c`. */
  function RFindChar(s: string, c: char): (r: Option<nat>)
    ensures r.Some? ==> r.value < |s| && s[r.value] == c && forall j :: r.value < j < |s| ==> s[j] != c
    ensures r.None? ==> forall j :: 0 <= j < |s| ==> s[j] != c
  {
    if s == [] then None
    else if s[|s| - 1] == c then Some(|s| - 1)
    else RFindChar(s[..|s| - 1], c)
  }

  /** The first index `i >= from` at which `pat` occurs in `s`. */
  function FindFrom(s: string, pat: string, from: nat): (r: Option<nat>)
    ensures r.Some? ==> from <= r.value && r.value + |pat| <= |s| && s[r.value..r.value + |pat|] == pat
    ensures r.Some? ==> OccursAt(s, pat, r.value)
    ensures r.Some? ==> forall j :: from <= j < r.value ==> !OccursAt(s, pat, j)
    ensures r.None? ==> forall j :: from <= j <= |s| ==> !OccursAt(s, pat, j)
    decreases |s| - from
  {
    if from > |s| then None
    else if pat <= s[from..] then Some(from)
    else FindFrom(s, pat, from + 1)
  }

  /** `s.replace(pat, rep)`: every non-overlapping occurrence, left to right. */
  function ReplaceAll(s: string, pat: string, rep: string): string
    requires pat != []
    decreases |s|
  {
    if s == [] then []
    else if pat <= s then rep + ReplaceAll(s[|pat|..], pat, rep)
    else [s[0]] + ReplaceAll(s[1..], pat, rep)
  }

  /** `s.split(sep)` for a one-character separator: always at least one piece. */
  function Split(s: string, sep: char): (r: seq<string>)
    ensures |r| >= 1
    ensures forall i :: 0 <= i < |r| ==> sep !in r[i]
    decreases |s|
  {
    match FindChar(s, sep)
    case None => [s]
    case Some(i) => [s[..i]] + Split(s[i + 1..], sep)
  }

  /** `sep.join(parts)`. */
  function Join(parts: seq<string>, sep: string): string {
    if parts == [] then ""
    else if |parts| == 1 then parts[0]
    else parts[0] + sep + Join(parts[1..], sep)
  }

  /** Splitting and joining back with the same separator restores the text. */
  lemma {:induction false} JoinSplit(s: string, sep: char)
    ensures Join(Split(s, sep), [sep]) == s
    decreases |s|
  {
    match FindChar(s, sep)
    case None =>
    case Some(i) =>
      var rest := Split(s[i + 1..], sep);
      JoinSplit(s[i + 1..], sep);
      assert Split(s, sep) == [s[..i]] + rest;
      assert s == s[..i] + [sep] + s[i + 1..];
  }

  /** Joining pieces free of the separator and splitting again gives the
      pieces back. */
  lemma {:induction false} SplitJoin(parts: seq<string>, sep: char)
    requires parts != []
    requires forall i :: 0 <= i < |parts| ==> sep !in parts[i]
    ensures Split(Join(parts, [sep]), sep) == parts
  {
    if |parts| > 1 {
      var rest := Join(parts[1..], [sep]);
      var s := parts[0] + [sep] + rest;
      assert Join(parts, [sep]) == s;
      assert FindChar(s, sep) == Some(|parts[0]|) by {
        assert s[|parts[0]|] == sep;
        assert forall j :: 0 <= j < |parts[0]| ==> s[j] == parts[0][j];
      }
      assert s[..|parts[0]|] == parts[0];
      assert s[|parts[0]| + 1..] == rest;
      SplitJoin(parts[1..], sep);
    }
  }

  function DigitValue(c: char): nat
    requires IsDigit(c)
  {
    c as int - '0' as int
  }

  predicate AllDigits(s: string) {
    forall i :: 0 <= i < |s| ==> IsDigit(s[i])
  }

  /** The value of a decimal numeral (`int(s)`). */
  function DigitsValue(s: string): nat
    requires AllDigits(s)
  {
    if s == [] then 0 else 10 * DigitsValue(s[..|s| - 1]) + DigitValue(s[|s| - 1])
  }

  function Pow10(n: nat): (r: nat)
    ensures r >= 1
  {
    if n == 0 then 1 else 10 * Pow10(n - 1)
  }

  /** The value of `whole.frac` as a decimal fraction (`float("12.5")`). */
  function DecimalValue(whole: string, frac: string): (r: real)
    requires AllDigits(whole) && AllDigits(frac)
    ensures r >= 0.0
  {
    DigitsValue(whole) as real + DigitsValue(frac) as real / Pow10(|frac|) as real
  }

  /** The end of the maximal run of digits that starts at `i`. */
  function DigitSpan(s: string, i: nat): (e: nat)
    requires i <= |s|
    ensures i <= e <= |s|
    ensures forall k :: i <= k < e ==> IsDigit(s[k])
    ensures e == |s| || !IsDigit(s[e])
    decreases |s| - i
  {
    if i < |s| && IsDigit(s[i]) then DigitSpan(s, i + 1) else i
  }

  /** `re.findall(r"\d+", s[i..])`, each run read as an integer. */
  function DigitRuns(s: string, i: nat): seq<nat>
    requires i <= |s|
    decreases |s| - i
  {
    if i == |s| then []
    else if IsDigit(s[i]) then
      var e := DigitSpan(s, i);
      [DigitsValue(s[i..e])] + DigitRuns(s, e)
    else DigitRuns(s, i + 1)
  }

  /** The value and end of the match of `\d+(?:\.\d+)?` that starts at digit `i`. */
  function DecimalAt(s: string, i: nat): (m: (real, nat))
    requires i < |s| && IsDigit(s[i])
    ensures i < m.1 <= |s|
    ensures m.0 >= 0.0
  {
    var e := DigitSpan(s, i);
    if e + 1 < |s| && s[e] == '.' && IsDigit(s[e + 1]) then
      var f := DigitSpan(s, e + 1);
      (DecimalValue(s[i..e], s[e + 1..f]), f)
    else (DecimalValue(s[i..e], ""), e)
  }

  /** `re.findall(r"\d+(?:\.\d+)?", s[i..])`, each match read as a float. */
  function DecimalNumbers(s: string, i: nat): seq<real>
    requires i <= |s|
    decreases |s| - i
  {
    if i == |s| then []
    else if IsDigit(s[i]) then
      var m := DecimalAt(s, i);
      [m.0] + DecimalNumbers(s, m.1)
    else DecimalNumbers(s, i + 1)
  }

  /** The value of the match of `\d+\.?\d*` that starts at digit `i`. */
  function UnsignedAt(s: string, i: nat): (v: real)
    requires i < |s| && IsDigit(s[i])
    ensures v >= 0.0
  {
    var e := DigitSpan(s, i);
    if e < |s| && s[e] == '.' then
      var f := DigitSpan(s, e + 1);
      DecimalValue(s[i..e], s[e + 1..f])
    else DecimalValue(s[i..e], "")
  }

  /** `re.search(r"(-?\d+\.?\d*)", s[i..])` read as a float: the leftmost
      position holding a digit, or a minus sign directly followed by one. */
  function FirstSignedNumber(s: string, i: nat): Option<real>
    requires i <= |s|
    decreases |s| - i
  {
    if i == |s| then None
    else if IsDigit(s[i]) then Some(UnsignedAt(s, i))
    else if s[i] == '-' && i + 1 < |s| && IsDigit(s[i + 1]) then Some(-UnsignedAt(s, i + 1))
    else FirstSignedNumber(s, i + 1)
  }

  /** Python's `<` on `str`: lexicographic order on code points. */
  predicate StrLess(a: string, b: string) {
    b != [] && (a == [] || a[0] < b[0] || (a[0] == b[0] && StrLess(a[1..], b[1..])))
  }

  lemma {:induction false} StrLessIrreflexive(a: string)
    ensures !StrLess(a, a)
  {
    if a != [] {
      StrLessIrreflexive(a[1..]);
    }
  }

  lemma {:induction false} StrLessTransitive(a: string, b: string, c: string)
    requires StrLess(a, b) && StrLess(b, c)
    ensures StrLess(a, c)
  {
    if a != [] && a[0] == b[0] && b[0] == c[0] {
      StrLessTransitive(a[1..], b[1..], c[1..]);
    }
  }

  lemma {:induction false} StrLessTotal(a: string, b: string)
    ensures a == b || StrLess(a, b) || StrLess(b, a)
  {
    if a != [] && b != [] && a[0] == b[0] {
      StrLessTotal(a[1..], b[1..]);
      if a[1..] == b[1..] {
        assert a == [a[0]] + a[1..] && b == [b[0]] + b[1..];
      }
    }
  }

  /** Python's string order is a strict weak order (indeed a strict total one). */
  lemma StrLessStrictWeakOrder()
    ensures Seqs.StrictWeakOrder(StrLess)
  {
    forall a: string, b: string ensures StrLess(a, b) ==> !StrLess(b, a) {
      StrLessAsymmetric(a, b);
    }
    forall a: string, b: string, c: string | !StrLess(a, b) && !StrLess(b, c) ensures !StrLess(a, c) {
      StrLessTotal(a, b);
      StrLessTotal(b, c);
      StrLessIrreflexive(a);
      if StrLess(b, a) && StrLess(c, b) {
        StrLessTransitive(c, b, a);
        StrLessAsymmetric(a, c);
      } else if StrLess(b, a) {
        StrLessAsymmetric(a, c);
      } else if StrLess(c, b) {
        StrLessAsymmetric(a, c);
      }
    }
  }

  /** A duplicate-free sequence in string order is strictly increasing. */
  lemma SortedDistinctIncreasing(s: seq<string>)
    requires Seqs.SortedBy(s, StrLess) && Seqs.Distinct(s)
    ensures forall i, j :: 0 <= i < j < |s| ==> StrLess(s[i], s[j])
  {
    forall i, j | 0 <= i < j < |s| ensures StrLess(s[i], s[j]) {
      StrLessTotal(s[i], s[j]);
    }
  }

  lemma StrLessAsymmetric(a: string, b: string)
    ensures !(StrLess(a, b) && StrLess(b, a))
  {
    if StrLess(a, b) && StrLess(b, a) {
      StrLessTransitive(a, b, a);
      StrLessIrreflexive(a);
    }
  }

  function DigitChar(d: nat): char
    requires d < 10
  {
    ('0' as int + d) as char
  }

  /** `str(n)` for a non-negative integer. */
  function NatToString(n: nat): (r: string)
    ensures r != [] && AllDigits(r)
    ensures DigitsValue(r) == n
  {
    if n < 10 then
      assert DigitsValue([DigitChar(n)]) == DigitsValue([]) * 10 + n;
      [DigitChar(n)]
    else
      var r := NatToString(n / 10) + [DigitChar(n % 10)];
      assert r[..|r| - 1] == NatToString(n / 10);
      r
  }

  /** `str(n)` for an integer. */
  function IntToString(n: int): string {
    if n >= 0 then NatToString(n) else "-" + NatToString(-n)
  }
}
