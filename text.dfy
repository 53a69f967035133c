/** Character classes and string operations of the JavaScript runtime that the
    turn processor relies on: `\d`, `\s`, `String.prototype.trim`, `includes`,
    `toLowerCase` followed by diacritic stripping, `replace(/\D/g, "")`,
    `parseInt` on a digit run and `length` in UTF-16 code units. */
module Text {

  /** `\d` in a JavaScript regular expression: ASCII digits only. */
  predicate IsDigit(c: char) {
    '0' <= c <= '9'
  }

  /** JavaScript WhiteSpace and LineTerminator code points: what `\s` matches
      and what `trim` removes. */
  predicate IsSpace(c: char) {
    || c == '\t' || c == '\n' || c == '\U{B}' || c == '\U{C}' || c == '\r' || c == ' '
    || c == '\U{A0}' || c == '\U{1680}' || ('\U{2000}' <= c <= '\U{200A}')
    || c == '\U{2028}' || c == '\U{2029}' || c == '\U{202F}' || c == '\U{205F}'
    || c == '\U{3000}' || c == '\U{FEFF}'
  }

  predicate IsAsciiUpper(c: char) {
    'A' <= c <= 'Z'
  }

  /** ASCII-only case folding, as a non-Unicode `/i` regular expression applies it. */
  function LowerAscii(c: char): (r: char)
    ensures !IsAsciiUpper(r)
    ensures IsAsciiUpper(c) ==> r as int == c as int + 32
    ensures !IsAsciiUpper(c) ==> r == c
  {
    if IsAsciiUpper(c) then (c as int + 32) as char else c
  }

  // ---------------------------------------------------------------------------
  // trim

  /** The first index at or after `i` that is not whitespace. */
  function SkipSpaces(s: string, i: nat): (j: nat)
    requires i <= |s|
    ensures i <= j <= |s|
    ensures forall k :: i <= k < j ==> IsSpace(s[k])
    ensures j == |s| || !IsSpace(s[j])
    decreases |s| - i
  {
    if i == |s| || !IsSpace(s[i]) then i else SkipSpaces(s, i + 1)
  }

  /** The smallest `j >= lo` such that `s[j..hi]` is all whitespace. */
  function BackSpaces(s: string, lo: nat, hi: nat): (j: nat)
    requires lo <= hi <= |s|
    ensures lo <= j <= hi
    ensures forall k :: j <= k < hi ==> IsSpace(s[k])
    ensures j == lo || !IsSpace(s[j - 1])
    decreases hi - lo
  {
    if hi == lo || !IsSpace(s[hi - 1]) then hi else BackSpaces(s, lo, hi - 1)
  }

  /** `s[i..j]` is what is left of `s` once its leading and trailing
      whitespace is removed. */
  ghost predicate TrimBounds(s: string, i: nat, j: nat) {
    && i <= j <= |s|
    && (forall k :: 0 <= k < i ==> IsSpace(s[k]))
    && (forall k :: j <= k < |s| ==> IsSpace(s[k]))
    && (i < j ==> !IsSpace(s[i]) && !IsSpace(s[j - 1]))
  }

  /** `String.prototype.trim`. */
  function Trim(s: string): string {
    var i := SkipSpaces(s, 0);
    s[i..BackSpaces(s, i, |s|)]
  }

  /** Trimming removes exactly the leading and trailing whitespace. */
  lemma TrimSpec(s: string)
    ensures exists i: nat, j: nat :: TrimBounds(s, i, j) && Trim(s) == s[i..j]
    ensures Trim(s) == [] || (!IsSpace(Trim(s)[0]) && !IsSpace(Trim(s)[|Trim(s)| - 1]))
  {
    var i := SkipSpaces(s, 0);
    var j := BackSpaces(s, i, |s|);
    assert TrimBounds(s, i, j);
  }

  /** The trimmed part of a string is determined by the string. */
  lemma TrimBoundsUnique(s: string, i: nat, j: nat, i': nat, j': nat)
    requires TrimBounds(s, i, j) && TrimBounds(s, i', j')
    ensures s[i..j] == s[i'..j']
  {
    if i < j && i' < j' {
      assert !IsSpace(s[i]) && !IsSpace(s[i']);
      assert !IsSpace(s[j - 1]) && !IsSpace(s[j' - 1]);
    }
  }

  /** Trimming twice is trimming once. */
  lemma TrimIdempotent(s: string)
    ensures Trim(Trim(s)) == Trim(s)
  {
    var t := Trim(s);
    TrimSpec(s);
    TrimSpec(t);
    assert TrimBounds(t, 0, |t|);
    var i: nat, j: nat :| TrimBounds(t, i, j) && Trim(t) == t[i..j];
    TrimBoundsUnique(t, i, j, 0, |t|);
  }

  // ---------------------------------------------------------------------------
  // includes

  /** `sub` occurs in `s` starting at index `i`. */
  ghost predicate OccursAt(s: string, sub: string, i: nat) {
    i + |sub| <= |s| && s[i..i + |sub|] == sub
  }

  function ContainsFrom(s: string, sub: string, i: nat): bool
    requires i <= |s|
    decreases |s| - i
  {
    if i + |sub| > |s| then false
    else if s[i..i + |sub|] == sub then true
    else ContainsFrom(s, sub, i + 1)
  }

  /** `String.prototype.includes`. */
  function Contains(s: string, sub: string): bool {
    ContainsFrom(s, sub, 0)
  }

  lemma {:induction false} ContainsFromSpec(s: string, sub: string, i: nat)
    requires i <= |s|
    ensures ContainsFrom(s, sub, i) <==> exists k: nat :: i <= k && OccursAt(s, sub, k)
    decreases |s| - i
  {
    if i + |sub| > |s| {
    } else if s[i..i + |sub|] == sub {
      assert OccursAt(s, sub, i);
    } else {
      ContainsFromSpec(s, sub, i + 1);
    }
  }

  /** `includes` is true exactly when `sub` occurs somewhere in `s`. */
  lemma ContainsSpec(s: string, sub: string)
    ensures Contains(s, sub) <==> exists k: nat :: OccursAt(s, sub, k)
  {
    ContainsFromSpec(s, sub, 0);
  }

  /** A word found in a string is still found once text is added around it. */
  lemma ContainsInContext(pre: string, s: string, post: string, sub: string)
    requires Contains(s, sub)
    ensures Contains(pre + s + post, sub)
  {
    ContainsSpec(s, sub);
    var k: nat :| OccursAt(s, sub, k);
    var t := pre + s + post;
    assert t[|pre| + k..|pre| + k + |sub|] == s[k..k + |sub|];
    assert OccursAt(t, sub, |pre| + k);
    ContainsSpec(t, sub);
  }

  // ---------------------------------------------------------------------------
  // toLowerCase().normalize("NFD").replace(/[̀-ͯ]/g, "")

  /** A combining diacritical mark, U+0300 to U+036F. */
  predicate IsCombiningMark(c: char) {
    '\U{300}' <= c <= '\U{36F}'
  }

  /** What lowercasing, canonical decomposition and removal of combining marks
      make of one character, for Basic Latin and Latin-1 Supplement; every
      other character is kept as it is. */
  function FoldChar(c: char): string {
    if IsCombiningMark(c) then ""
    else if IsAsciiUpper(c) then [LowerAscii(c)]
    else if ('\U{C0}' <= c <= '\U{C5}') || ('\U{E0}' <= c <= '\U{E5}') then "a"
    else if c == '\U{C6}' then "\U{E6}"
    else if c == '\U{C7}' || c == '\U{E7}' then "c"
    else if ('\U{C8}' <= c <= '\U{CB}') || ('\U{E8}' <= c <= '\U{EB}') then "e"
    else if ('\U{CC}' <= c <= '\U{CF}') || ('\U{EC}' <= c <= '\U{EF}') then "i"
    else if c == '\U{D0}' then "\U{F0}"
    else if c == '\U{D1}' || c == '\U{F1}' then "n"
    else if ('\U{D2}' <= c <= '\U{D6}') || ('\U{F2}' <= c <= '\U{F6}') then "o"
    else if c == '\U{D8}' then "\U{F8}"
    else if ('\U{D9}' <= c <= '\U{DC}') || ('\U{F9}' <= c <= '\U{FC}') then "u"
    else if c == '\U{DD}' || c == '\U{FD}' || c == '\U{FF}' then "y"
    else if c == '\U{DE}' then "\U{FE}"
    else [c]
  }

  /** The keyword-matching form of a message. */
  function Normalize(s: string): string {
    if s == [] then [] else FoldChar(s[0]) + Normalize(s[1..])
  }

  /** No capital and no combining mark survives normalization, and nothing is added. */
  lemma {:induction false} NormalizeSpec(s: string)
    ensures |Normalize(s)| <= |s|
    ensures forall k :: 0 <= k < |Normalize(s)| ==> !IsAsciiUpper(Normalize(s)[k]) && !IsCombiningMark(Normalize(s)[k])
  {
    if s != [] {
      NormalizeSpec(s[1..]);
    }
  }

  lemma {:induction false} NormalizeAppend(a: string, b: string)
    ensures Normalize(a + b) == Normalize(a) + Normalize(b)
  {
    if a == [] {
      assert a + b == b;
    } else {
      assert (a + b)[1..] == a[1..] + b;
      NormalizeAppend(a[1..], b);
    }
  }

  /** Normalizing a normalized message changes nothing. */
  lemma {:induction false} NormalizeIdempotent(s: string)
    ensures Normalize(Normalize(s)) == Normalize(s)
  {
    if s != [] {
      var head := FoldChar(s[0]);
      NormalizeAppend(head, Normalize(s[1..]));
      NormalizeIdempotent(s[1..]);
      if head != [] {
        assert head == [head[0]];
        assert FoldChar(head[0]) == head;
        assert Normalize(head) == FoldChar(head[0]) + Normalize(head[1..]);
      }
    }
  }

  /** Keyword matching is case- and accent-blind: an ASCII capital counts as
      its lower-case letter, a Latin-1 letter with a diacritic as the plain
      lower-case letter, and the Latin-1 capitals without a decomposition
      (Æ, Ð, Ø, Þ) as their lower-case forms; ×, ß and ÷ are kept. */
  lemma FoldsToPlainLetter(c: char)
    ensures IsAsciiUpper(c) ==> Normalize([c]) == [LowerAscii(c)]
    ensures ('\U{C0}' <= c <= '\U{C5}' || '\U{E0}' <= c <= '\U{E5}') ==> Normalize([c]) == "a"
    ensures (c == '\U{C7}' || c == '\U{E7}') ==> Normalize([c]) == "c"
    ensures ('\U{C8}' <= c <= '\U{CB}' || '\U{E8}' <= c <= '\U{EB}') ==> Normalize([c]) == "e"
    ensures ('\U{CC}' <= c <= '\U{CF}' || '\U{EC}' <= c <= '\U{EF}') ==> Normalize([c]) == "i"
    ensures (c == '\U{D1}' || c == '\U{F1}') ==> Normalize([c]) == "n"
    ensures ('\U{D2}' <= c <= '\U{D6}' || '\U{F2}' <= c <= '\U{F6}') ==> Normalize([c]) == "o"
    ensures ('\U{D9}' <= c <= '\U{DC}' || '\U{F9}' <= c <= '\U{FC}') ==> Normalize([c]) == "u"
    ensures (c == '\U{DD}' || c == '\U{FD}' || c == '\U{FF}') ==> Normalize([c]) == "y"
    ensures c == '\U{C6}' ==> Normalize([c]) == "\U{E6}"
    ensures c == '\U{D0}' ==> Normalize([c]) == "\U{F0}"
    ensures c == '\U{D8}' ==> Normalize([c]) == "\U{F8}"
    ensures c == '\U{DE}' ==> Normalize([c]) == "\U{FE}"
    ensures (c == '\U{D7}' || c == '\U{DF}' || c == '\U{F7}') ==> Normalize([c]) == [c]
  {
    assert Normalize([c]) == FoldChar(c) + Normalize([]);
  }

  /** A character normalization leaves as it is: no ASCII capital, no
      combining mark, and outside the Latin-1 letters U+00C0 to U+00FF. */
  predicate Unfolded(c: char) {
    !IsAsciiUpper(c) && !IsCombiningMark(c) && (c < '\U{C0}' || '\U{FF}' < c)
  }

  /** Text made only of such characters, like lower-case ASCII letters,
      digits and spaces, is its own keyword form. */
  lemma {:induction false} NormalizeKeepsUnfolded(s: string)
    requires forall k :: 0 <= k < |s| ==> Unfolded(s[k])
    ensures Normalize(s) == s
  {
    if s != [] {
      NormalizeKeepsUnfolded(s[1..]);
      assert FoldChar(s[0]) == [s[0]];
      assert s == [s[0]] + s[1..];
    }
  }

  /** Wherever a word occurs in a message, its keyword form occurs in the
      message's keyword form. */
  lemma NormalizeKeepsOccurrences(m: string, w: string)
    ensures Contains(m, w) ==> Contains(Normalize(m), Normalize(w))
  {
    if Contains(m, w) {
      ContainsSpec(m, w);
      var k: nat :| OccursAt(m, w, k);
      var pre, post := m[..k], m[k + |w|..];
      assert m == pre + w + post;
      NormalizeAppend(pre, w);
      NormalizeAppend(pre + w, post);
      var nw := Normalize(w);
      assert OccursAt(nw, nw, 0);
      ContainsSpec(nw, nw);
      ContainsInContext(Normalize(pre), nw, Normalize(post), nw);
    }
  }

  // ---------------------------------------------------------------------------
  // replace(/\D/g, "")

  /** Removes every character that is not an ASCII digit, keeping the order. */
  function StripNonDigits(s: string): string {
    if s == [] then [] else (if IsDigit(s[0]) then [s[0]] else []) + StripNonDigits(s[1..])
  }

  /** What is left is digits only, and every digit is kept as often as it occurs. */
  lemma {:induction false} StripNonDigitsSpec(s: string)
    ensures |StripNonDigits(s)| <= |s|
    ensures forall k :: 0 <= k < |StripNonDigits(s)| ==> IsDigit(StripNonDigits(s)[k])
    ensures forall c :: IsDigit(c) ==> multiset(StripNonDigits(s))[c] == multiset(s)[c]
  {
    if s != [] {
      StripNonDigitsSpec(s[1..]);
      assert s == [s[0]] + s[1..];
    }
  }

  lemma {:induction false} StripNonDigitsAppend(a: string, b: string)
    ensures StripNonDigits(a + b) == StripNonDigits(a) + StripNonDigits(b)
  {
    if a == [] {
      assert a + b == b;
    } else {
      assert (a + b)[1..] == a[1..] + b;
      StripNonDigitsAppend(a[1..], b);
    }
  }

  /** A string of digits is left as it is. */
  lemma {:induction false} StripNonDigitsKeepsDigits(s: string)
    requires forall k :: 0 <= k < |s| ==> IsDigit(s[k])
    ensures StripNonDigits(s) == s
  {
    if s != [] {
      StripNonDigitsKeepsDigits(s[1..]);
    }
  }

  // ---------------------------------------------------------------------------
  // parseInt on a digit run

  function DigitValue(c: char): (d: nat)
    ensures d < 10
  {
    if IsDigit(c) then c as int - '0' as int else 0
  }

  function Pow10(n: nat): (p: nat)
    ensures p >= 1
  {
    if n == 0 then 1 else 10 * Pow10(n - 1)
  }

  /** The base-10 value of a run of digits, most significant first. */
  function DecimalValue(ds: string): (v: nat)
    ensures v < Pow10(|ds|)
  {
    if ds == [] then 0 else 10 * DecimalValue(ds[..|ds| - 1]) + DigitValue(ds[|ds| - 1])
  }

  // ---------------------------------------------------------------------------
  // length

  /** `length` of a JavaScript string: characters outside the Basic
      Multilingual Plane take two UTF-16 code units. */
  function Utf16Length(s: string): (n: nat)
    ensures |s| <= n <= 2 * |s|
  {
    if s == [] then 0 else (if s[0] as int >= 0x1_0000 then 2 else 1) + Utf16Length(s[1..])
  }
}
