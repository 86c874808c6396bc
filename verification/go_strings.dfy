/**
 * The parts of Go's `strings`, `unicode` and `strconv` packages that the
 * OBJ parser and `ToSnakeCase` rely on, over strings as sequences of
 * characters.
 */
module GoStrings {

  /** `unicode.IsSpace`: the Latin-1 spaces and the Unicode White_Space characters. */
  predicate IsSpace(c: char) {
    || c == '\t' || c == '\n' || c == '\U{000B}' || c == '\U{000C}' || c == '\r' || c == ' '
    || c == '\U{0085}' || c == '\U{00A0}' || c == '\U{1680}'
    || ('\U{2000}' <= c <= '\U{200A}')
    || c == '\U{2028}' || c == '\U{2029}' || c == '\U{202F}' || c == '\U{205F}' || c == '\U{3000}'
  }

  predicate NoSpace(s: string) {
    forall i :: 0 <= i < |s| ==> !IsSpace(s[i])
  }

  predicate AllSpace(s: string) {
    forall i :: 0 <= i < |s| ==> IsSpace(s[i])
  }

  // ----- strings.TrimSpace -----

  /** s without its leading white space. */
  function TrimLeftSpace(s: string): (r: string)
    ensures |r| <= |s|
  {
    if s != [] && IsSpace(s[0]) then TrimLeftSpace(s[1..]) else s
  }

  /** s without its trailing white space. */
  function TrimRightSpace(s: string): (r: string)
    ensures |r| <= |s|
  {
    if s != [] && IsSpace(s[|s| - 1]) then TrimRightSpace(s[..|s| - 1]) else s
  }

  /** `strings.TrimSpace`. */
  function TrimSpace(s: string): string {
    TrimRightSpace(TrimLeftSpace(s))
  }

  /** TrimLeftSpace drops an all-space prefix and stops at the first other character. */
  lemma {:induction false} TrimLeftSpaceSplits(s: string)
    ensures var r := TrimLeftSpace(s);
            && s == s[..|s| - |r|] + r
            && AllSpace(s[..|s| - |r|])
            && (r == [] || !IsSpace(r[0]))
  {
    if s != [] && IsSpace(s[0]) {
      TrimLeftSpaceSplits(s[1..]);
      var r := TrimLeftSpace(s);
      assert s[..|s| - |r|] == [s[0]] + s[1..][..|s| - 1 - |r|];
    }
  }

  /** TrimRightSpace drops an all-space suffix and stops at the last other character. */
  lemma {:induction false} TrimRightSpaceSplits(s: string)
    ensures var r := TrimRightSpace(s);
            && s == r + s[|r|..]
            && AllSpace(s[|r|..])
            && (r == [] || !IsSpace(r[|r| - 1]))
  {
    if s != [] && IsSpace(s[|s| - 1]) {
      var p := s[..|s| - 1];
      TrimRightSpaceSplits(p);
      var r := TrimRightSpace(s);
      assert s[|r|..] == p[|r|..] + [s[|s| - 1]];
    }
  }

  /** The number of leading white-space characters of s. */
  function LeadingSpaces(s: string): nat {
    |s| - |TrimLeftSpace(s)|
  }

  /**
   * TrimSpace removes white space only from the two ends: s is an all-space
   * prefix, the result, and an all-space suffix.
   */
  lemma TrimSpaceSlices(s: string)
    ensures LeadingSpaces(s) + |TrimSpace(s)| <= |s|
    ensures var k, r := LeadingSpaces(s), TrimSpace(s);
            && s == s[..k] + r + s[k + |r|..]
            && AllSpace(s[..k]) && AllSpace(s[k + |r|..])
  {
    var t := TrimLeftSpace(s);
    var r := TrimRightSpace(t);
    TrimLeftSpaceSplits(s);
    TrimRightSpaceSplits(t);
    var k := |s| - |t|;
    assert s[k + |r|..] == t[|r|..];
  }

  /** The result of TrimSpace is empty exactly when s is all white space, and otherwise has no white space at either end. */
  lemma TrimSpaceEnds(s: string)
    ensures TrimSpace(s) == [] <==> AllSpace(s)
    ensures TrimSpace(s) == [] || (!IsSpace(TrimSpace(s)[0]) && !IsSpace(TrimSpace(s)[|TrimSpace(s)| - 1]))
  {
    var t := TrimLeftSpace(s);
    var r := TrimRightSpace(t);
    TrimLeftSpaceSplits(s);
    TrimRightSpaceSplits(t);
    var k := |s| - |t|;
    if r == [] {
      assert t == t[|r|..];
      assert k == |s|;
    } else {
      assert r[0] == t[0] == s[k];
    }
  }

  // ----- strings.Fields -----

  /**
   * The scan behind `strings.Fields`: `word` is the run of non-space
   * characters read so far; a white-space character ends it.
   */
  function FieldsFrom(s: string, word: string): seq<string>
    decreases |s|
  {
    if s == [] then (if word == [] then [] else [word])
    else if IsSpace(s[0]) then
      (if word == [] then [] else [word]) + FieldsFrom(s[1..], [])
    else FieldsFrom(s[1..], word + [s[0]])
  }

  /** `strings.Fields`: the maximal runs of non-space characters, in order. */
  function Fields(s: string): seq<string> {
    FieldsFrom(s, [])
  }

  /** Every field is a non-empty run of non-space characters. */
  lemma {:induction false} FieldsFromAreWords(s: string, word: string)
    requires NoSpace(word)
    ensures forall i :: 0 <= i < |FieldsFrom(s, word)| ==>
              |FieldsFrom(s, word)[i]| > 0 && NoSpace(FieldsFrom(s, word)[i])
    decreases |s|
  {
    if s != [] {
      if IsSpace(s[0]) {
        FieldsFromAreWords(s[1..], []);
      } else {
        FieldsFromAreWords(s[1..], word + [s[0]]);
      }
    }
  }

  lemma FieldsAreWords(s: string)
    ensures forall i :: 0 <= i < |Fields(s)| ==> |Fields(s)[i]| > 0 && NoSpace(Fields(s)[i])
  {
    FieldsFromAreWords(s, []);
  }

  /** Fields finds no word exactly in an all-space string. */
  lemma {:induction false} FieldsFromEmptyIff(s: string, word: string)
    ensures FieldsFrom(s, word) == [] <==> word == [] && AllSpace(s)
    decreases |s|
  {
    if s != [] {
      if IsSpace(s[0]) {
        FieldsFromEmptyIff(s[1..], []);
      } else {
        FieldsFromEmptyIff(s[1..], word + [s[0]]);
      }
    }
  }

  lemma FieldsEmptyIff(s: string)
    ensures Fields(s) == [] <==> AllSpace(s)
  {
    FieldsFromEmptyIff(s, []);
  }

  /** Reading a run of non-space characters only extends the current word. */
  lemma {:induction false} FieldsFromWord(w: string, rest: string, word: string)
    requires NoSpace(w)
    ensures FieldsFrom(w + rest, word) == FieldsFrom(rest, word + w)
    decreases |w|
  {
    if w == [] {
      assert w + rest == rest && word + w == word;
    } else {
      assert (w + rest)[1..] == w[1..] + rest;
      assert word + w == (word + [w[0]]) + w[1..];
      FieldsFromWord(w[1..], rest, word + [w[0]]);
    }
  }

  /** A word followed by one space starts the fields of what follows. */
  lemma FieldsOfWordSpace(w: string, rest: string)
    requires |w| > 0 && NoSpace(w)
    ensures Fields(w + " " + rest) == [w] + Fields(rest)
  {
    FieldsFromWord(w, " " + rest, []);
    assert w + " " + rest == w + (" " + rest);
    assert [] + w == w;
    assert (" " + rest)[1..] == rest;
  }

  lemma FieldsOfSingleWord(w: string)
    requires |w| > 0 && NoSpace(w)
    ensures Fields(w) == [w]
  {
    FieldsFromWord(w, [], []);
    assert w + [] == w && [] + w == w;
  }

  // ----- strings.Join, strings.HasPrefix, strings.ToLower -----

  /** `strings.Join`. */
  function Join(ws: seq<string>, sep: string): string {
    if |ws| == 0 then ""
    else if |ws| == 1 then ws[0]
    else ws[0] + sep + Join(ws[1..], sep)
  }

  /** Join puts the separator between the first word and the join of the rest. */
  lemma JoinCons(w: string, rest: seq<string>, sep: string)
    requires |rest| >= 1
    ensures Join([w] + rest, sep) == w + sep + Join(rest, sep)
  {
    assert ([w] + rest)[1..] == rest;
  }

  /** Fields splits a space-joined list of non-empty words back into that list. */
  lemma {:induction false} FieldsOfJoin(ws: seq<string>)
    requires forall i :: 0 <= i < |ws| ==> |ws[i]| > 0 && NoSpace(ws[i])
    ensures Fields(Join(ws, " ")) == ws
    decreases |ws|
  {
    if |ws| == 1 {
      FieldsOfSingleWord(ws[0]);
    } else if |ws| > 1 {
      FieldsOfJoin(ws[1..]);
      FieldsOfWordSpace(ws[0], Join(ws[1..], " "));
      assert [ws[0]] + ws[1..] == ws;
    }
  }

  /** Every character of a join comes from one of the words or from the separator. */
  lemma {:induction false} JoinKeeps(ws: seq<string>, sep: string, p: char -> bool)
    requires forall i, j :: 0 <= i < |ws| && 0 <= j < |ws[i]| ==> p(ws[i][j])
    requires forall j :: 0 <= j < |sep| ==> p(sep[j])
    ensures forall k :: 0 <= k < |Join(ws, sep)| ==> p(Join(ws, sep)[k])
    decreases |ws|
  {
    if |ws| > 1 {
      JoinKeeps(ws[1..], sep, p);
      var w, r := ws[0], Join(ws[1..], sep);
      forall k | 0 <= k < |w + sep + r|
        ensures p((w + sep + r)[k])
      {
        if k < |w| {
          assert (w + sep + r)[k] == ws[0][k];
        } else if k < |w| + |sep| {
          assert (w + sep + r)[k] == sep[k - |w|];
        } else {
          assert (w + sep + r)[k] == r[k - |w| - |sep|];
        }
      }
    }
  }

  /** A join of non-empty words is empty exactly when there are no words. */
  lemma JoinEmpty(ws: seq<string>, sep: string)
    requires forall i :: 0 <= i < |ws| ==> |ws[i]| > 0
    ensures Join(ws, sep) == [] <==> ws == []
  {
    if |ws| > 1 {
      assert |ws[0]| > 0;
    }
  }

  /** Split at a one-character separator undoes Join when no word contains the separator. */
  lemma {:induction false} SplitJoin(ws: seq<string>, sep: char)
    requires |ws| >= 1
    requires forall i :: 0 <= i < |ws| ==> sep !in ws[i]
    ensures Split(Join(ws, [sep]), sep) == ws
    decreases |ws|
  {
    var w := ws[0];
    if |ws| == 1 {
      var i := IndexOf(w, sep);
      assert i == |w|;
    } else {
      var rest := ws[1..];
      var s := Join(ws, [sep]);
      assert s == w + [sep] + Join(rest, [sep]);
      assert s[..|w|] == w;
      assert s[|w| + 1..] == Join(rest, [sep]);
      SplitAtFirst(s, sep, |w|);
      SplitJoin(rest, sep);
      assert [w] + rest == ws;
    }
  }

  /** `strings.HasPrefix`. */
  predicate HasPrefix(s: string, prefix: string) {
    |prefix| <= |s| && s[..|prefix|] == prefix
  }

  /** `strings.HasSuffix`. */
  predicate HasSuffix(s: string, suffix: string) {
    |suffix| <= |s| && s[|s| - |suffix|..] == suffix
  }

  /** `strings.TrimSuffix`: s without the suffix when it ends with it, otherwise s unchanged. */
  function TrimSuffix(s: string, suffix: string): (r: string)
    ensures HasSuffix(s, suffix) ==> r + suffix == s
    ensures !HasSuffix(s, suffix) ==> r == s
  {
    if HasSuffix(s, suffix) then
      assert s == s[..|s| - |suffix|] + s[|s| - |suffix|..];
      s[..|s| - |suffix|]
    else s
  }

  /**
   * The ASCII part of `unicode.ToLower`: A to Z are mapped to a to z and every
   * other character is kept. Non-ASCII capitals are not lowered here.
   */
  function ToLowerChar(c: char): (l: char)
    ensures 'A' <= c <= 'Z' ==> 'a' <= l <= 'z' && l as int - c as int == 32
    ensures !('A' <= c <= 'Z') ==> l == c
  {
    if 'A' <= c <= 'Z' then (c as int + 32) as char else c
  }

  /** `strings.ToLower` restricted to ASCII capitals, character by character. */
  function ToLower(s: string): (r: string)
    ensures |r| == |s|
    ensures forall i :: 0 <= i < |s| ==> r[i] == ToLowerChar(s[i])
  {
    seq(|s|, i requires 0 <= i < |s| => ToLowerChar(s[i]))
  }

  lemma ToLowerIdempotent(s: string)
    ensures ToLower(ToLower(s)) == ToLower(s)
  {
  }

  /** Lower-casing neither creates nor removes white space. */
  lemma ToLowerKeepsSpaces(s: string)
    ensures NoSpace(ToLower(s)) <==> NoSpace(s)
    ensures |ToLower(s)| > 0 <==> |s| > 0
  {
    assert forall i :: 0 <= i < |s| ==> (IsSpace(ToLower(s)[i]) <==> IsSpace(s[i]));
  }

  // ----- strings.Split with a one-character separator -----

  /** Index of the first `sep` in s, or |s| when there is none. */
  function IndexOf(s: string, sep: char): (i: nat)
    ensures i <= |s|
    ensures i < |s| ==> s[i] == sep
    ensures forall j :: 0 <= j < i ==> s[j] != sep
  {
    if s == [] then 0
    else if s[0] == sep then 0
    else 1 + IndexOf(s[1..], sep)
  }

  /** `strings.Split(s, sep)` for a one-character separator. */
  function Split(s: string, sep: char): (parts: seq<string>)
    ensures |parts| >= 1
    decreases |s|
  {
    var i := IndexOf(s, sep);
    if i == |s| then [s]
    else [s[..i]] + Split(s[i + 1..], sep)
  }

  /** No piece of Split contains the separator. */
  lemma {:induction false} SplitPiecesFree(s: string, sep: char)
    ensures forall k :: 0 <= k < |Split(s, sep)| ==> sep !in Split(s, sep)[k]
    decreases |s|
  {
    var i := IndexOf(s, sep);
    assert sep !in s[..i];
    if i < |s| {
      SplitPiecesFree(s[i + 1..], sep);
    }
  }

  /** Split at the first separator: the text before it, then the split of the text after it. */
  lemma SplitAtFirst(s: string, sep: char, i: nat)
    requires i < |s| && s[i] == sep && sep !in s[..i]
    ensures Split(s, sep) == [s[..i]] + Split(s[i + 1..], sep)
    ensures s == s[..i] + [sep] + s[i + 1..]
  {
    assert IndexOf(s, sep) == i;
  }

  /** Joining the pieces of Split with the separator gives back the string. */
  lemma {:induction false} JoinSplit(s: string, sep: char)
    ensures Join(Split(s, sep), [sep]) == s
    decreases |s|
  {
    var i := IndexOf(s, sep);
    if i < |s| {
      var rest := s[i + 1..];
      assert sep !in s[..i];
      SplitAtFirst(s, sep, i);
      JoinSplit(rest, sep);
      JoinCons(s[..i], Split(rest, sep), [sep]);
    }
  }

  /** Split finds one more piece than there are separators. */
  lemma {:induction false} SplitCount(s: string, sep: char)
    ensures |Split(s, sep)| == 1 + multiset(s)[sep]
    decreases |s|
  {
    var i := IndexOf(s, sep);
    assert sep !in s[..i];
    if i == |s| {
      assert s[..i] == s;
    } else {
      SplitCount(s[i + 1..], sep);
      assert s == s[..i] + [sep] + s[i + 1..];
    }
  }

  // ----- strconv.Atoi -----

  const MaxInt64: int := 0x7FFF_FFFF_FFFF_FFFF
  const MinInt64: int := -0x8000_0000_0000_0000

  predicate IsDigit(c: char) {
    '0' <= c <= '9'
  }

  predicate AllDigits(s: string) {
    forall i :: 0 <= i < |s| ==> IsDigit(s[i])
  }

  /** The value of a string of decimal digits, most significant first. */
  function DigitsValue(s: string): nat
    requires AllDigits(s)
  {
    if s == [] then 0
    else DigitsValue(s[..|s| - 1]) * 10 + (s[|s| - 1] as int - '0' as int)
  }

  /**
   * `strconv.Atoi`: the value and whether the error is nil. A string that is
   * not an optional sign followed by at least one digit gives 0; a value
   * outside int64 is clamped to the nearest bound and reported as an error.
   */
  function Atoi(s: string): (r: (int, bool))
    ensures MinInt64 <= r.0 <= MaxInt64
  {
    var negative := |s| > 0 && s[0] == '-';
    var digits := if |s| > 0 && (s[0] == '+' || s[0] == '-') then s[1..] else s;
    if digits == [] || !AllDigits(digits) then (0, false)
    else
      var v: int := DigitsValue(digits);
      var n: int := if negative then -v else v;
      if n > MaxInt64 then (MaxInt64, false)
      else if n < MinInt64 then (MinInt64, false)
      else (n, true)
  }

  /** Decimal digits of a natural number, most significant first (`strconv.Itoa`). */
  function NatDigits(n: nat): (s: string)
    ensures |s| > 0 && AllDigits(s)
    decreases n
  {
    if n < 10 then [('0' as int + n) as char]
    else NatDigits(n / 10) + [('0' as int + n % 10) as char]
  }

  /** `strconv.Itoa`. */
  function Itoa(n: int): (s: string)
  {
    if n < 0 then "-" + NatDigits(-n) else NatDigits(n)
  }

  lemma {:induction false} DigitsValueOfNatDigits(n: nat)
    ensures DigitsValue(NatDigits(n)) == n
    decreases n
  {
    if n >= 10 {
      DigitsValueOfNatDigits(n / 10);
      var s := NatDigits(n);
      assert s[..|s| - 1] == NatDigits(n / 10);
    }
  }

  /** Atoi reads back every int64 that Itoa writes. */
  lemma AtoiItoa(n: int)
    requires MinInt64 <= n <= MaxInt64
    ensures Atoi(Itoa(n)) == (n, true)
  {
    if n < 0 {
      var digits := NatDigits(-n);
      DigitsValueOfNatDigits(-n);
      assert Itoa(n)[0] == '-' && Itoa(n)[1..] == digits;
    } else {
      var digits := NatDigits(n);
      DigitsValueOfNatDigits(n);
      assert IsDigit(digits[0]);
    }
  }

  /** The cases Go reports as a syntax error all give 0. */
  lemma AtoiRejects(s: string)
    requires s == [] || s == "+" || s == "-" || (|s| > 0 && !IsDigit(s[0]) && s[0] != '+' && s[0] != '-')
    ensures Atoi(s) == (0, false)
  {
    if |s| > 0 && !IsDigit(s[0]) && s[0] != '+' && s[0] != '-' {
      assert !AllDigits(s);
    }
  }
}
