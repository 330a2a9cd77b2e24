/** Python string operations the SMS core relies on, restricted to ASCII
    character classes: `isspace`, `strip`, `lower`/`upper`, `split(sep)`,
    `split()`, `sep.join`, slicing with possibly negative bounds, and
    decimal formatting and parsing of integers. */
module Text {
  import opened Errors

  /** Python's `str.isspace()` on ASCII: tab, newline, vertical tab, form
      feed, carriage return, the separators 0x1C-0x1F and the space. */
  predicate IsSpace(c: char) {
    c == ' ' || 9 <= c as int <= 13 || 28 <= c as int <= 31
  }

  predicate IsDigit(c: char) {
    '0' <= c <= '9'
  }

  predicate IsAscii(s: string) {
    forall i :: 0 <= i < |s| ==> s[i] as int < 128
  }

  predicate StartsWith(s: string, prefix: string) {
    |prefix| <= |s| && s[..|prefix|] == prefix
  }

  /** `s.lstrip()`: the longest suffix of `s` that does not start with whitespace. */
  function StripLeft(s: string): (r: string)
    ensures |r| <= |s| && r == s[|s| - |r|..]
    ensures r == [] || !IsSpace(r[0])
    ensures forall i :: 0 <= i < |s| - |r| ==> IsSpace(s[i])
  {
    if s != [] && IsSpace(s[0]) then StripLeft(s[1..]) else s
  }

  /** `s.rstrip()`: the longest prefix of `s` that does not end with whitespace. */
  function StripRight(s: string): (r: string)
    ensures |r| <= |s| && r == s[..|r|]
    ensures r == [] || !IsSpace(r[|r| - 1])
    ensures forall i :: |r| <= i < |s| ==> IsSpace(s[i])
  {
    if s != [] && IsSpace(s[|s| - 1]) then StripRight(s[..|s| - 1]) else s
  }

  /** `s.strip()`: `s` without its leading and trailing whitespace; it is a
      prefix of `s.lstrip()`, itself a suffix of `s`. */
  function Strip(s: string): (r: string)
    ensures |r| <= |StripLeft(s)| && r == StripLeft(s)[..|r|]
    ensures r == [] || (!IsSpace(r[0]) && !IsSpace(r[|r| - 1]))
  {
    StripRight(StripLeft(s))
  }

  /** Stripping a string that has no whitespace at either end changes nothing. */
  lemma StripUnchanged(s: string)
    requires s == [] || (!IsSpace(s[0]) && !IsSpace(s[|s| - 1]))
    ensures Strip(s) == s
  {
  }

  /** One whitespace character before an already stripped string is removed. */
  lemma StripLeadingSpace(c: char, s: string)
    requires IsSpace(c)
    requires s == [] || (!IsSpace(s[0]) && !IsSpace(s[|s| - 1]))
    ensures Strip([c] + s) == s
  {
    assert ([c] + s)[1..] == s;
  }

  /** `strip` is idempotent. */
  lemma StripIdempotent(s: string)
    ensures Strip(Strip(s)) == Strip(s)
  {
    StripUnchanged(Strip(s));
  }

  /** An all-whitespace string strips to the empty string, and only such strings do. */
  lemma {:induction false} StripEmptyIff(s: string)
    ensures Strip(s) == [] <==> forall i :: 0 <= i < |s| ==> IsSpace(s[i])
  {
    var l := StripLeft(s);
    if l != [] {
      assert !IsSpace(s[|s| - |l|]);
      assert StripRight(l) != [];
    }
  }

  function LowerChar(c: char): char {
    if 'A' <= c <= 'Z' then (c as int + 32) as char else c
  }

  function UpperChar(c: char): char {
    if 'a' <= c <= 'z' then (c as int - 32) as char else c
  }

  /** `s.lower()` on ASCII letters. */
  function Lower(s: string): (r: string)
    ensures |r| == |s| && forall i :: 0 <= i < |s| ==> r[i] == LowerChar(s[i])
  {
    seq(|s|, i requires 0 <= i < |s| => LowerChar(s[i]))
  }

  /** `s.upper()` on ASCII letters. */
  function Upper(s: string): (r: string)
    ensures |r| == |s| && forall i :: 0 <= i < |s| ==> r[i] == UpperChar(s[i])
  {
    seq(|s|, i requires 0 <= i < |s| => UpperChar(s[i]))
  }

  /** `s.split(sep)` for a non-empty separator: the pieces between the
      occurrences of `sep`, found left to right without overlap. */
  function Split(s: string, sep: string): (r: seq<string>)
    requires sep != []
    ensures |r| >= 1
    decreases |s|
  {
    if |s| < |sep| then [s]
    else if s[..|sep|] == sep then [[]] + Split(s[|sep|..], sep)
    else
      var rest := Split(s[1..], sep);
      [[s[0]] + rest[0]] + rest[1..]
  }

  /** `sep.join(parts)`. */
  function Join(parts: seq<string>, sep: string): string
    decreases |parts|
  {
    if |parts| == 0 then ""
    else if |parts| == 1 then parts[0]
    else parts[0] + sep + Join(parts[1..], sep)
  }

  lemma JoinConsHead(c: char, parts: seq<string>, sep: string)
    requires |parts| >= 1
    ensures Join([[c] + parts[0]] + parts[1..], sep) == [c] + Join(parts, sep)
  {
    var q := [[c] + parts[0]] + parts[1..];
    assert q[1..] == parts[1..];
  }

  /** Joining the pieces of a split with the same separator gives back the string. */
  lemma {:induction false} JoinSplit(s: string, sep: string)
    requires sep != []
    ensures Join(Split(s, sep), sep) == s
    decreases |s|
  {
    if |s| < |sep| {
    } else if s[..|sep|] == sep {
      var rest := Split(s[|sep|..], sep);
      JoinSplit(s[|sep|..], sep);
      assert ([[]] + rest)[1..] == rest;
      assert s == sep + s[|sep|..];
    } else {
      var rest := Split(s[1..], sep);
      JoinSplit(s[1..], sep);
      JoinConsHead(s[0], rest, sep);
      assert s == [s[0]] + s[1..];
    }
  }

  /** The sentences joined back with `". "` after each one, the last included. */
  function Dotted(ss: seq<string>): (r: string)
    ensures |r| >= 2 * |ss|
    decreases |ss|
  {
    if ss == [] then "" else Dotted(ss[..|ss| - 1]) + ss[|ss| - 1] + ". "
  }

  /** `Dotted` taken apart at the front. */
  lemma {:induction false} DottedCons(ss: seq<string>)
    requires ss != []
    ensures Dotted(ss) == ss[0] + ". " + Dotted(ss[1..])
    decreases |ss|
  {
    if |ss| > 1 {
      var init := ss[..|ss| - 1];
      DottedCons(init);
      assert init[1..] == ss[1..][..|ss[1..]| - 1];
    }
  }

  /** Every sentence gets `". "`, so the text gains `". "` at its end. */
  lemma {:induction false} DottedJoin(ss: seq<string>)
    requires ss != []
    ensures Dotted(ss) == Join(ss, ". ") + ". "
    decreases |ss|
  {
    DottedCons(ss);
    if |ss| > 1 {
      DottedJoin(ss[1..]);
    }
  }

  /** Number of leading characters of `s` that are not whitespace. */
  function WordLength(s: string): (n: nat)
    ensures n <= |s|
    ensures forall i :: 0 <= i < n ==> !IsSpace(s[i])
    ensures n < |s| ==> IsSpace(s[n])
  {
    if s == [] || IsSpace(s[0]) then 0 else 1 + WordLength(s[1..])
  }

  predicate IsWord(w: string) {
    w != [] && forall i :: 0 <= i < |w| ==> !IsSpace(w[i])
  }

  /** `s.split()`: the maximal runs of non-whitespace characters, in order. */
  function Words(s: string): (r: seq<string>)
    ensures forall i :: 0 <= i < |r| ==> IsWord(r[i])
    decreases |s|
  {
    var t := StripLeft(s);
    if t == [] then []
    else
      var n := WordLength(t);
      FirstWord(t);
      var rest := Words(t[n..]);
      AllWordsCons(t[..n], rest);
      [t[..n]] + rest
  }

  lemma AllWordsCons(w: string, rest: seq<string>)
    requires IsWord(w) && forall i :: 0 <= i < |rest| ==> IsWord(rest[i])
    ensures forall i :: 0 <= i < |[w] + rest| ==> IsWord(([w] + rest)[i])
  {
  }

  /** A text that starts with a non-whitespace character starts with a word. */
  lemma FirstWord(t: string)
    requires t != [] && !IsSpace(t[0])
    ensures 1 <= WordLength(t) && IsWord(t[..WordLength(t)])
  {
    var n := WordLength(t);
    forall i | 0 <= i < n
      ensures !IsSpace(t[..n][i])
    {
      assert t[..n][i] == t[i];
    }
  }

  /** `" ".join(s.split())`: whitespace runs collapsed to one space, ends trimmed. */
  function CollapseWhitespace(s: string): string {
    Join(Words(s), " ")
  }

  /** The normal form that `CollapseWhitespace` produces: the only whitespace
      is single spaces between non-whitespace characters. */
  predicate Collapsed(s: string) {
    && (forall i :: 0 <= i < |s| ==> s[i] == ' ' || !IsSpace(s[i]))
    && (s != [] ==> s[0] != ' ' && s[|s| - 1] != ' ')
    && (forall i: nat | i < |s| :: !DoubleSpaceAt(s, i))
  }

  predicate DoubleSpaceAt(s: string, i: nat) {
    i + 1 < |s| && s[i] == ' ' && s[i + 1] == ' '
  }

  lemma {:induction false} JoinWordsCollapsed(ws: seq<string>)
    requires forall i :: 0 <= i < |ws| ==> IsWord(ws[i])
    ensures Collapsed(Join(ws, " "))
    ensures ws != [] ==> Join(ws, " ") != []
    decreases |ws|
  {
    if |ws| > 1 {
      JoinWordsCollapsed(ws[1..]);
      var t := Join(ws[1..], " ");
      var j := ws[0] + " " + t;
      var w := ws[0];
      assert j[..|w|] == w;
      assert j[|w|] == ' ';
      assert j[|w| + 1..] == t;
      assert j[|j| - 1] == t[|t| - 1];
      forall i: nat
        ensures !DoubleSpaceAt(j, i)
      {
        if i + 1 >= |j| {
        } else if i < |w| {
          assert j[i] == w[i];
          assert !IsSpace(w[i]);
        } else if i == |w| {
          assert j[i + 1] == t[0];
        } else {
          assert !DoubleSpaceAt(t, i - |w| - 1);
          assert j[i] == t[i - |w| - 1];
          assert j[i + 1] == t[i - |w|];
        }
      }
    }
  }

  /** Collapsing always yields the normal form. */
  lemma CollapseIsCollapsed(s: string)
    ensures Collapsed(CollapseWhitespace(s))
  {
    JoinWordsCollapsed(Words(s));
  }

  /** Collapsing yields the empty string exactly for all-whitespace input. */
  lemma {:induction false} CollapseEmptyIff(s: string)
    ensures CollapseWhitespace(s) == [] <==> forall i :: 0 <= i < |s| ==> IsSpace(s[i])
  {
    var t := StripLeft(s);
    if t != [] {
      assert !IsSpace(s[|s| - |t|]);
      JoinWordsCollapsed(Words(s));
    }
  }

  /** Splitting off the first word of a string that starts with one. */
  lemma WordsStep(t: string)
    requires t != [] && !IsSpace(t[0])
    ensures Words(t) == [t[..WordLength(t)]] + Words(t[WordLength(t)..])
  {
    assert StripLeft(t) == t;
  }

  /** After the first word of a normal-form string comes either nothing, or
      one space followed by a non-empty normal-form rest. */
  lemma CollapsedAfterWord(s: string, n: nat)
    requires Collapsed(s) && s != [] && n == WordLength(s) && n < |s|
    ensures s[n] == ' ' && n + 1 < |s| && !IsSpace(s[n + 1])
    ensures Collapsed(s[n + 1..])
  {
    assert s[|s| - 1] != ' ';
    assert !DoubleSpaceAt(s, n);
    CollapsedSuffix(s, n + 1);
  }

  lemma CollapsedSuffix(s: string, k: nat)
    requires Collapsed(s) && 0 < k < |s| && s[k - 1] == ' '
    ensures Collapsed(s[k..])
  {
    var tail := s[k..];
    assert !DoubleSpaceAt(s, k - 1);
    forall i: nat | i < |tail|
      ensures !DoubleSpaceAt(tail, i)
    {
      assert !DoubleSpaceAt(s, k + i);
    }
  }

  lemma JoinCons(w: string, ws: seq<string>, sep: string)
    requires ws != []
    ensures Join([w] + ws, sep) == w + sep + Join(ws, sep)
  {
    assert ([w] + ws)[1..] == ws;
  }

  lemma SplitAround(s: string, n: nat)
    requires n < |s|
    ensures s == s[..n] + [s[n]] + s[n + 1..]
  {
  }

  /** A string already in normal form is left unchanged by collapsing. */
  lemma {:induction false} CollapseNormalUnchanged(s: string)
    requires Collapsed(s)
    ensures CollapseWhitespace(s) == s
    decreases |s|
  {
    if s != [] {
      var n := WordLength(s);
      WordsStep(s);
      if n == |s| {
        assert s[n..] == [];
        assert s[..n] == s;
      } else {
        var tail := s[n + 1..];
        CollapsedAfterWord(s, n);
        CollapseNormalUnchanged(tail);
        assert s[n..][1..] == tail;
        assert StripLeft(s[n..]) == tail;
        var ws := Words(tail);
        assert Words(s[n..]) == ws;
        assert ws != [];
        JoinCons(s[..n], ws, " ");
        SplitAround(s, n);
      }
    }
  }

  function Clamp(i: int, n: nat): (k: nat)
    ensures k <= n
  {
    if i < 0 then 0 else if i > n then n else i
  }

  /** Python's index normalisation for a slice bound: negative counts from the end. */
  function SliceIndex(i: int, n: nat): (k: nat)
    ensures k <= n
  {
    Clamp(if i < 0 then n + i else i, n)
  }

  /** Python's `s[:end]`. */
  function PrefixSlice<T>(s: seq<T>, end: int): (r: seq<T>)
    ensures 0 <= end <= |s| ==> r == s[..end]
    ensures end < 0 ==> r == s[..Clamp(|s| + end, |s|)]
    ensures end > |s| ==> r == s
  {
    s[..SliceIndex(end, |s|)]
  }

  /** Python's `s[start:]`. */
  function SuffixSlice<T>(s: seq<T>, start: int): (r: seq<T>)
    ensures 0 <= start <= |s| ==> r == s[start..]
    ensures start < 0 ==> r == s[Clamp(|s| + start, |s|)..]
    ensures start > |s| ==> r == []
  {
    s[SliceIndex(start, |s|)..]
  }

  /** Python's `s[-n:]` for n >= 1: the last min(n, |s|) elements. */
  lemma LastElements<T>(s: seq<T>, n: int)
    requires n >= 1
    ensures SuffixSlice(s, -n) == s[|s| - Min(n, |s|)..]
  {
  }

  function Min(a: int, b: int): int {
    if a <= b then a else b
  }

  function DigitChar(d: nat): char
    requires d < 10
  {
    ('0' as int + d) as char
  }

  /** `str(n)` for a natural number. */
  function DecimalString(n: nat): (r: string)
    ensures r != [] && forall i :: 0 <= i < |r| ==> IsDigit(r[i])
  {
    if n < 10 then [DigitChar(n)] else DecimalString(n / 10) + [DigitChar(n % 10)]
  }

  /** `str(i)` for any integer. */
  function IntString(i: int): string {
    if i < 0 then "-" + DecimalString(-i) else DecimalString(i)
  }

  /** The value of a non-empty run of decimal digits. */
  function DigitsValue(ds: string): nat
    requires forall i :: 0 <= i < |ds| ==> IsDigit(ds[i])
    decreases |ds|
  {
    if ds == [] then 0
    else
      assert IsDigit(ds[|ds| - 1]);
      DigitsValue(ds[..|ds| - 1]) * 10 + (ds[|ds| - 1] as int - '0' as int)
  }

  predicate AllDigits(s: string) {
    s != [] && forall i :: 0 <= i < |s| ==> IsDigit(s[i])
  }

  /** Python's `int(s)` on ASCII input: surrounding whitespace, an optional
      sign, then one or more decimal digits; `None` where Python raises
      `ValueError`. */
  function ParseInt(s: string): (r: Option<int>)
  {
    var t := Strip(s);
    if t != [] && (t[0] == '-' || t[0] == '+') then
      (if AllDigits(t[1..]) then
         var v: int := DigitsValue(t[1..]);
         Some(if t[0] == '-' then -v else v)
       else None)
    else if AllDigits(t) then Some(DigitsValue(t))
    else None
  }

  lemma {:induction false} DigitsOfDecimal(n: nat)
    ensures DigitsValue(DecimalString(n)) == n
  {
    if n >= 10 {
      DigitsOfDecimal(n / 10);
      var r := DecimalString(n / 10) + [DigitChar(n % 10)];
      assert r[..|r| - 1] == DecimalString(n / 10);
    }
  }

  /** A bare run of digits parses to its value. */
  lemma ParseDigits(ds: string)
    requires AllDigits(ds)
    ensures ParseInt(ds) == Some(DigitsValue(ds))
  {
    assert !IsSpace(ds[0]) && !IsSpace(ds[|ds| - 1]);
    StripUnchanged(ds);
    assert ds[0] != '-' && ds[0] != '+';
  }

  /** A minus sign before a run of digits negates its value. */
  lemma ParseNegatedDigits(ds: string)
    requires AllDigits(ds)
    ensures ParseInt("-" + ds) == Some(-(DigitsValue(ds) as int))
  {
    var s := "-" + ds;
    assert s[0] == '-' && s[1..] == ds && s[|s| - 1] == ds[|ds| - 1];
    StripUnchanged(s);
  }

  lemma ParseNegativeString(i: int)
    requires i < 0
    ensures ParseInt(IntString(i)) == Some(i)
  {
    var n: nat := -i;
    var ds := DecimalString(n);
    assert DigitsValue(ds) == n by {
      DigitsOfDecimal(n);
    }
    assert ParseInt("-" + ds) == Some(i) by {
      ParseNegatedDigits(ds);
    }
    assert IntString(i) == "-" + ds;
  }

  lemma ParseNaturalString(i: int)
    requires i >= 0
    ensures ParseInt(IntString(i)) == Some(i)
  {
    var ds := DecimalString(i);
    DigitsOfDecimal(i);
    ParseDigits(ds);
    assert IntString(i) == ds;
  }

  /** Formatting an integer and parsing it back gives the integer. */
  lemma ParseIntString(i: int)
    ensures ParseInt(IntString(i)) == Some(i)
  {
    if i < 0 {
      ParseNegativeString(i);
    } else {
      ParseNaturalString(i);
    }
  }
}
