/**
 * The parts of Go's `strings` and `strconv` packages that the output parser,
 * the SSH client and the provider configuration rely on, over Dafny strings
 * (sequences of Unicode scalar values).
 */
module Text {
  import opened Wrappers

  /** unicode.IsSpace: the Unicode White_Space characters. */
  predicate IsSpace(c: char) {
    || c == ' ' || ('\t' <= c <= '\r') || c == '\U{85}' || c == '\U{A0}' || c == '\U{1680}'
    || ('\U{2000}' <= c <= '\U{200A}') || c == '\U{2028}' || c == '\U{2029}'
    || c == '\U{202F}' || c == '\U{205F}' || c == '\U{3000}'
  }

  /** Every character of s is white space (the empty string included). */
  predicate Blank(s: string) {
    forall i :: 0 <= i < |s| ==> IsSpace(s[i])
  }

  /** No character of s is white space. */
  predicate NoSpace(s: string) {
    forall i :: 0 <= i < |s| ==> !IsSpace(s[i])
  }

  /** s neither starts nor ends with white space. */
  predicate Trimmed(s: string) {
    s == [] || (!IsSpace(s[0]) && !IsSpace(s[|s| - 1]))
  }

  function TrimLeft(s: string): (r: string)
    ensures |r| <= |s| && r == s[|s| - |r|..]
    ensures Blank(s[..|s| - |r|])
    ensures r == [] || !IsSpace(r[0])
  {
    if |s| > 0 && IsSpace(s[0]) then TrimLeft(s[1..]) else s
  }

  /** strings.TrimSpace: s without its leading and trailing white space. */
  function TrimSpace(s: string): (r: string)
    ensures Trimmed(r)
    ensures r == [] <==> Blank(s)
    ensures Trimmed(s) ==> r == s
    ensures |r| <= |s|
    decreases |s|
  {
    if |s| > 0 && IsSpace(s[0]) then
      assert Blank(s) <==> Blank(s[1..]) by {
        assert forall i :: 0 < i < |s| ==> s[i] == s[1..][i - 1];
      }
      TrimSpace(s[1..])
    else if |s| > 0 && IsSpace(s[|s| - 1]) then
      assert Blank(s) <==> Blank(s[..|s| - 1]) by {
        assert forall i :: 0 <= i < |s| - 1 ==> s[i] == s[..|s| - 1][i];
      }
      TrimSpace(s[..|s| - 1])
    else s
  }

  /** r occurs in s at k, with only white space before and after it. */
  predicate PaddedAt(s: string, r: string, k: int) {
    0 <= k <= |s| - |r| && r == s[k..k + |r|] && Blank(s[..k]) && Blank(s[k + |r|..])
  }

  /**
   * TrimSpace removes only white space, and only at the ends: its result is
   * the part of s between a blank prefix and a blank suffix.
   */
  lemma {:induction false} TrimSpaceInfix(s: string)
    ensures exists k :: PaddedAt(s, TrimSpace(s), k)
    decreases |s|
  {
    var r := TrimSpace(s);
    if |s| > 0 && IsSpace(s[0]) {
      TrimSpaceInfix(s[1..]);
      var k :| PaddedAt(s[1..], r, k);
      PaddedFront(s, r, k);
    } else if |s| > 0 && IsSpace(s[|s| - 1]) {
      TrimSpaceInfix(s[..|s| - 1]);
      var k :| PaddedAt(s[..|s| - 1], r, k);
      PaddedBack(s, r, k);
    } else {
      assert PaddedAt(s, r, 0);
    }
  }

  /**
   * Any non-empty text without surrounding white space that sits in s between
   * a blank prefix and a blank suffix is TrimSpace(s): with TrimSpaceInfix,
   * this pins TrimSpace down completely.
   */
  lemma TrimSpaceUnique(s: string, r: string, k: int)
    requires PaddedAt(s, r, k) && Trimmed(r) && r != []
    ensures TrimSpace(s) == r
  {
    assert s[k] == r[0] && !IsSpace(s[k]);
    TrimSpaceInfix(s);
    var r' := TrimSpace(s);
    var k' :| PaddedAt(s, r', k');
    PaddedUnique(s, r, k, r', k');
  }

  lemma PaddedUnique(s: string, r1: string, k1: int, r2: string, k2: int)
    requires PaddedAt(s, r1, k1) && Trimmed(r1) && r1 != []
    requires PaddedAt(s, r2, k2) && Trimmed(r2) && r2 != []
    ensures r1 == r2
  {
    assert s[k1] == r1[0] && s[k2] == r2[0];
    assert k1 == k2;
    var e1, e2 := k1 + |r1| - 1, k2 + |r2| - 1;
    assert s[e1] == r1[|r1| - 1] && s[e2] == r2[|r2| - 1];
    assert e1 == e2;
  }

  lemma PaddedFront(s: string, r: string, k: int)
    requires |s| > 0 && IsSpace(s[0]) && PaddedAt(s[1..], r, k)
    ensures PaddedAt(s, r, k + 1)
  {
    var t := s[1..];
    assert r == s[k + 1..k + 1 + |r|];
    assert s[..k + 1] == [s[0]] + t[..k];
    assert s[k + 1 + |r|..] == t[k + |r|..];
  }

  lemma PaddedBack(s: string, r: string, k: int)
    requires |s| > 0 && IsSpace(s[|s| - 1]) && PaddedAt(s[..|s| - 1], r, k)
    ensures PaddedAt(s, r, k)
  {
    var t := s[..|s| - 1];
    assert r == s[k..k + |r|];
    assert s[..k] == t[..k];
    assert s[k + |r|..] == t[k + |r|..] + [s[|s| - 1]];
  }

  /** Leading white space before a trimmed text is what TrimSpace removes. */
  lemma {:induction false} TrimSpacePadded(pad: string, k: string)
    requires Blank(pad) && Trimmed(k)
    ensures TrimSpace(pad + k) == k
  {
    if pad == [] {
      assert pad + k == k;
    } else {
      assert (pad + k)[1..] == pad[1..] + k;
      TrimSpacePadded(pad[1..], k);
    }
  }

  /** strings.TrimRight(s, "\n"): s without its trailing newlines. */
  function TrimTrailingNewlines(s: string): (r: string)
    ensures |r| <= |s| && r == s[..|r|]
    ensures forall i :: |r| <= i < |s| ==> s[i] == '\n'
    ensures r == [] || r[|r| - 1] != '\n'
  {
    if |s| > 0 && s[|s| - 1] == '\n' then TrimTrailingNewlines(s[..|s| - 1]) else s
  }

  /** strings.HasPrefix */
  predicate HasPrefix(s: string, p: string) {
    |p| <= |s| && s[..|p|] == p
  }

  /** strings.HasSuffix */
  predicate HasSuffix(s: string, p: string) {
    |p| <= |s| && s[|s| - |p|..] == p
  }

  /** pat occurs in s starting at position j. */
  predicate OccursAt(s: string, pat: string, j: int) {
    0 <= j <= |s| && HasPrefix(s[j..], pat)
  }

  lemma OccursAtShift(s: string, pat: string)
    requires |s| > 0
    ensures forall j :: 1 <= j ==> (OccursAt(s, pat, j) <==> OccursAt(s[1..], pat, j - 1))
  {
    forall j | 1 <= j <= |s|
      ensures OccursAt(s, pat, j) <==> OccursAt(s[1..], pat, j - 1)
    {
      assert s[j..] == s[1..][j - 1..];
    }
  }

  /** strings.Index: the first position at which pat occurs in s, or -1. */
  function Index(s: string, pat: string): (r: int)
    ensures r == -1 || OccursAt(s, pat, r)
    ensures forall j :: 0 <= j && (r == -1 || j < r) ==> !OccursAt(s, pat, j)
  {
    if |s| < |pat| then -1
    else if s[..|pat|] == pat then 0
    else
      OccursAtShift(s, pat);
      var k := Index(s[1..], pat);
      if k < 0 then -1 else k + 1
  }

  /** strings.Contains */
  predicate Contains(s: string, pat: string) {
    Index(s, pat) >= 0
  }

  lemma ContainsAt(s: string, pat: string, j: int)
    requires OccursAt(s, pat, j)
    ensures Contains(s, pat)
  {
  }

  /** The position of the first c in s, or -1 (strings.IndexByte). */
  function IndexOfChar(s: string, c: char): (r: int)
    ensures -1 <= r < |s|
    ensures r >= 0 ==> s[r] == c
    ensures forall j :: 0 <= j < |s| && (r < 0 || j < r) ==> s[j] != c
  {
    if |s| == 0 then -1
    else if s[0] == c then 0
    else
      var k := IndexOfChar(s[1..], c);
      if k < 0 then -1 else k + 1
  }

  /** strings.Split with a one-character separator: the pieces between the separators. */
  function Split(s: string, sep: char): (r: seq<string>)
    ensures |r| >= 1
    decreases |s|
  {
    var i := IndexOfChar(s, sep);
    if i < 0 then [s] else [s[..i]] + Split(s[i + 1..], sep)
  }

  /** No piece of a split holds the separator. */
  lemma {:induction false} SplitPieces(s: string, sep: char)
    ensures forall k :: 0 <= k < |Split(s, sep)| ==> sep !in Split(s, sep)[k]
    decreases |s|
  {
    var i := IndexOfChar(s, sep);
    if i < 0 {
      assert forall j :: 0 <= j < |s| ==> s[j] != sep;
    } else {
      var piece := s[..i];
      assert forall j :: 0 <= j < |piece| ==> piece[j] != sep;
      var rest := Split(s[i + 1..], sep);
      SplitPieces(s[i + 1..], sep);
      forall k | 0 < k < |Split(s, sep)|
        ensures Split(s, sep)[k] == rest[k - 1]
      {
      }
    }
  }

  /** strings.Join with a one-character separator. */
  function Join(ls: seq<string>, sep: char): string {
    if |ls| == 0 then ""
    else if |ls| == 1 then ls[0]
    else ls[0] + [sep] + Join(ls[1..], sep)
  }

  /** Every piece of a blank joined string is blank. */
  lemma {:induction false} BlankJoin(ls: seq<string>, sep: char)
    requires Blank(Join(ls, sep))
    ensures forall i :: 0 <= i < |ls| ==> Blank(ls[i])
  {
    if |ls| > 1 {
      var rest := Join(ls[1..], sep);
      var s := Join(ls, sep);
      assert s == ls[0] + [sep] + rest;
      assert forall j :: 0 <= j < |ls[0]| ==> ls[0][j] == s[j];
      assert forall j :: 0 <= j < |rest| ==> rest[j] == s[|ls[0]| + 1 + j];
      BlankJoin(ls[1..], sep);
      forall i | 0 < i < |ls|
        ensures Blank(ls[i])
      {
        assert ls[i] == ls[1..][i - 1];
      }
    }
  }

  /** Joining the pieces of a split gives back the original string. */
  lemma {:induction false} JoinSplit(s: string, sep: char)
    ensures Join(Split(s, sep), sep) == s
    decreases |s|
  {
    var i := IndexOfChar(s, sep);
    if i >= 0 {
      var rest := s[i + 1..];
      JoinSplit(rest, sep);
      var tail := Split(rest, sep);
      assert Split(s, sep) == [s[..i]] + tail;
      JoinCons(s[..i], tail, sep);
      Around(s, i);
    }
  }

  lemma JoinCons(piece: string, tail: seq<string>, sep: char)
    requires |tail| >= 1
    ensures Join([piece] + tail, sep) == piece + [sep] + Join(tail, sep)
  {
    assert ([piece] + tail)[1..] == tail;
  }

  /** A string is the text before position i, the character at i, and the text after it. */
  lemma Around(s: string, i: int)
    requires 0 <= i < |s|
    ensures s[..i] + [s[i]] + s[i + 1..] == s
  {
  }

  /** Splitting a join of separator-free pieces gives back the pieces. */
  lemma {:induction false} SplitJoin(ls: seq<string>, sep: char)
    requires |ls| >= 1
    requires forall i :: 0 <= i < |ls| ==> sep !in ls[i]
    ensures Split(Join(ls, sep), sep) == ls
  {
    if |ls| == 1 {
      assert IndexOfChar(ls[0], sep) == -1;
    } else {
      var s := Join(ls, sep);
      var rest := Join(ls[1..], sep);
      assert s == ls[0] + [sep] + rest;
      assert s[|ls[0]|] == sep;
      assert IndexOfChar(s, sep) == |ls[0]|;
      assert s[..|ls[0]|] == ls[0];
      assert s[|ls[0]| + 1..] == rest;
      SplitJoin(ls[1..], sep);
      assert ls == [ls[0]] + ls[1..];
    }
  }

  /** The longest prefix of s that holds no white space. */
  function Word(s: string): (r: string)
    ensures |r| <= |s| && r == s[..|r|] && NoSpace(r)
    ensures |r| == |s| || IsSpace(s[|r|])
  {
    if |s| == 0 || IsSpace(s[0]) then "" else [s[0]] + Word(s[1..])
  }

  /** Every string of ws is a non-empty run of non-space characters. */
  predicate Words(ws: seq<string>) {
    forall i :: 0 <= i < |ws| ==> ws[i] != "" && NoSpace(ws[i])
  }

  lemma WordsCons(w: string, ws: seq<string>)
    requires w != "" && NoSpace(w) && Words(ws)
    ensures Words([w] + ws)
  {
    forall i | 0 < i < |[w] + ws|
      ensures ([w] + ws)[i] == ws[i - 1]
    {
    }
  }

  /** strings.Fields: the maximal runs of non-space characters of s, in order. */
  function Fields(s: string): (r: seq<string>)
    ensures Words(r)
    decreases |s|
  {
    var t := TrimLeft(s);
    if t == "" then []
    else
      var w := Word(t);
      assert w != "" by {
        assert !IsSpace(t[0]);
      }
      var rest := Fields(t[|w|..]);
      WordsCons(w, rest);
      [w] + rest
  }

  lemma FieldsBlank(s: string)
    ensures Fields(s) == [] <==> Blank(s)
  {
    var t := TrimLeft(s);
    assert s == s[..|s| - |t|] + t;
    assert t != [] ==> t[0] == s[|s| - |t|];
    if t == [] {
      assert s == s[..|s|];
    }
  }

  /** A non-empty word without white space is its own only field. */
  lemma FieldsOfWord(w: string)
    requires w != [] && NoSpace(w)
    ensures Fields(w) == [w]
  {
    assert TrimLeft(w) == w;
    WordOfNoSpace(w);
    assert w[|w|..] == [];
    assert TrimLeft([]) == [];
  }

  lemma {:induction false} WordOfNoSpace(w: string)
    requires NoSpace(w)
    ensures Word(w) == w
  {
    if w != [] {
      WordOfNoSpace(w[1..]);
    }
  }

  lemma {:induction false} WordBeforeSpace(w: string, rest: string)
    requires NoSpace(w) && rest != [] && IsSpace(rest[0])
    ensures Word(w + rest) == w
  {
    if w == [] {
      assert w + rest == rest;
    } else {
      assert (w + rest)[1..] == w[1..] + rest;
      WordBeforeSpace(w[1..], rest);
    }
  }

  /** A word followed by white space (or nothing) is the first field. */
  lemma FieldsCons(w: string, rest: string)
    requires w != [] && NoSpace(w)
    requires rest == [] || IsSpace(rest[0])
    ensures Fields(w + rest) == [w] + Fields(rest)
  {
    var s := w + rest;
    assert s[0] == w[0];
    assert TrimLeft(s) == s;
    if rest == [] {
      assert s == w;
      WordOfNoSpace(w);
    } else {
      WordBeforeSpace(w, rest);
    }
    assert s[|w|..] == rest;
  }

  /** Leading white space does not change the fields. */
  lemma FieldsSkipSpace(c: char, s: string)
    requires IsSpace(c)
    ensures Fields([c] + s) == Fields(s)
  {
    assert ([c] + s)[1..] == s;
    assert TrimLeft([c] + s) == TrimLeft(s);
  }

  /** Two words separated by one space are two fields. */
  lemma FieldsOfPair(u: string, l: string)
    requires u != [] && NoSpace(u) && l != [] && NoSpace(l)
    ensures Fields(u + " " + l) == [u, l]
  {
    assert u + " " + l == u + (" " + l);
    FieldsCons(u, " " + l);
    FieldsSkipSpace(' ', l);
    FieldsOfWord(l);
  }

  predicate IsDigit(c: char) {
    '0' <= c <= '9'
  }

  predicate AllDigits(s: string) {
    forall i :: 0 <= i < |s| ==> IsDigit(s[i])
  }

  function DigitChar(d: nat): (c: char)
    requires d < 10
    ensures IsDigit(c)
  {
    ((('0' as int) + d) as char)
  }

  function DigitsValue(s: string): nat
    requires AllDigits(s)
  {
    if s == [] then 0 else DigitsValue(s[..|s| - 1]) * 10 + ((s[|s| - 1] as int) - ('0' as int))
  }

  /** The decimal digits of n, most significant first. */
  function NatToString(n: nat): (r: string)
    ensures r != [] && AllDigits(r)
  {
    if n < 10 then [DigitChar(n)] else NatToString(n / 10) + [DigitChar(n % 10)]
  }

  /** strconv.Itoa */
  function Itoa(n: int): string {
    if n < 0 then "-" + NatToString(-n) else NatToString(n)
  }

  const MinInt64: int := -0x8000_0000_0000_0000
  const MaxInt64: int := 0x7FFF_FFFF_FFFF_FFFF

  /**
   * strconv.Atoi on a 64-bit platform: an optional sign followed by one or
   * more decimal digits whose value fits in 64 bits; anything else is an error.
   */
  function Atoi(s: string): (r: Option<int>)
    ensures r.Some? ==> MinInt64 <= r.value <= MaxInt64
    ensures r.Some? ==> s != [] && var digits := if s[0] == '-' || s[0] == '+' then s[1..] else s;
      digits != [] && AllDigits(digits)
  {
    var digits := if |s| > 0 && (s[0] == '-' || s[0] == '+') then s[1..] else s;
    if |digits| == 0 || !AllDigits(digits) then None
    else
      var v: int := if s[0] == '-' then 0 - DigitsValue(digits) else DigitsValue(digits);
      if MinInt64 <= v <= MaxInt64 then Some(v) else None
  }

  /**
   * Every optionally signed, non-empty run of decimal digits parses, to its
   * value with the sign applied, exactly when that value fits in 64 bits.
   */
  lemma AtoiSignedDigits(sign: string, digits: string)
    requires sign == "" || sign == "+" || sign == "-"
    requires digits != [] && AllDigits(digits)
    ensures var v := if sign == "-" then 0 - DigitsValue(digits) else DigitsValue(digits);
      Atoi(sign + digits) == if MinInt64 <= v <= MaxInt64 then Some(v) else None
  {
    var s := sign + digits;
    if sign == "" {
      assert s == digits && IsDigit(s[0]);
    } else {
      assert s[0] == sign[0] && s[1..] == digits;
    }
  }

  lemma {:induction false} DigitsValueOfNat(n: nat)
    ensures DigitsValue(NatToString(n)) == n
  {
    if n >= 10 {
      var s := NatToString(n);
      assert s[..|s| - 1] == NatToString(n / 10);
      DigitsValueOfNat(n / 10);
    }
  }

  /** Parsing the decimal rendering of a 64-bit integer gives the integer back. */
  lemma AtoiItoa(n: int)
    requires MinInt64 <= n <= MaxInt64
    ensures Atoi(Itoa(n)) == Some(n)
  {
    var s := Itoa(n);
    if n < 0 {
      var d := NatToString(-n);
      DigitsValueOfNat(-n);
      assert s == "-" + d && s[0] == '-';
      assert s[1..] == d;
    } else {
      var d := NatToString(n);
      DigitsValueOfNat(n);
      assert s == d && IsDigit(s[0]);
    }
  }
}
