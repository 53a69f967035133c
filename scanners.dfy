/** Hand-written scanners standing in for the two regular expressions the
    turn processor runs on the raw message: `/(\d+)\s*(ha|hectarea)/i` for the
    surface and `/[\d\s\-\+\(\)]{10,15}/` for the phone number. Each is proved
    to find exactly what the JavaScript regular-expression engine finds: the
    leftmost match, with greedy repetition. */
module Scanners {
  import opened Wrappers
  import opened Text

  // ---------------------------------------------------------------------------
  // Surface: /(\d+)\s*(ha|hectarea)/i

  /** `word` (lower-case ASCII) occurs at index `k` of `s`, ignoring ASCII case. */
  predicate WordAtIgnoringCase(s: string, k: nat, word: string) {
    k + |word| <= |s| && forall t :: 0 <= t < |word| ==> LowerAscii(s[k + t]) == word[t]
  }

  /** The alternation `(ha|hectarea)` matches at index `k`. */
  predicate UnitAt(s: string, k: nat) {
    WordAtIgnoringCase(s, k, "ha") || WordAtIgnoringCase(s, k, "hectarea")
  }

  /** The whole pattern matches `s[i..]` with digits `s[i..j]`, whitespace
      `s[j..k]` and the unit starting at `k`. */
  ghost predicate SurfaceMatch(s: string, i: nat, j: nat, k: nat) {
    && i < j <= k <= |s|
    && (forall t :: i <= t < j ==> IsDigit(s[t]))
    && (forall t :: j <= t < k ==> IsSpace(s[t]))
    && UnitAt(s, k)
  }

  /** Among all matches, the one the engine reports: leftmost start, and for
      that start the longest digit run (greedy `\d+`). */
  ghost predicate ReportedSurface(s: string, i: nat, j: nat) {
    forall i': nat, j': nat, k': nat :: SurfaceMatch(s, i', j', k') ==> i <= i' && (i' == i ==> j' <= j)
  }

  /** The end of the run of digits that starts at `i`. */
  function DigitsEnd(s: string, i: nat): (j: nat)
    requires i <= |s|
    ensures i <= j <= |s|
    ensures forall t :: i <= t < j ==> IsDigit(s[t])
    ensures j == |s| || !IsDigit(s[j])
    decreases |s| - i
  {
    if i == |s| || !IsDigit(s[i]) then i else DigitsEnd(s, i + 1)
  }

  /** Both spellings of the unit start with an `h`. */
  lemma UnitHead(s: string, k: nat)
    ensures UnitAt(s, k) ==> k < |s| && LowerAscii(s[k]) == 'h'
  {
    if WordAtIgnoringCase(s, k, "ha") {
      assert LowerAscii(s[k + 0]) == "ha"[0];
    } else if WordAtIgnoringCase(s, k, "hectarea") {
      assert LowerAscii(s[k + 0]) == "hectarea"[0];
    }
  }

  /** No match starts inside a digit run `s[i..j]` whose maximal whitespace
      continuation is not followed by the unit. */
  lemma NoSurfaceInRun(s: string, i: nat, j: nat, i': nat, j': nat, k': nat)
    requires i <= j <= |s| && j == DigitsEnd(s, i)
    requires !UnitAt(s, SkipSpaces(s, j))
    requires i <= i' < j
    ensures !SurfaceMatch(s, i', j', k')
  {
    UnitHead(s, k');
    assert j' < |s| ==> IsDigit(s[j']) || !IsDigit(s[j']);
  }

  /** The first match starting at or after `i`, as the bounds of its digits. */
  function SurfaceFrom(s: string, i: nat): (r: Option<(nat, nat)>)
    requires i <= |s|
    ensures r.Some? ==> i <= r.value.0 < r.value.1 <= |s|
    decreases |s| - i
  {
    if i == |s| then None
    else if !IsDigit(s[i]) then SurfaceFrom(s, i + 1)
    else
      var j := DigitsEnd(s, i);
      if UnitAt(s, SkipSpaces(s, j)) then Some((i, j)) else SurfaceFrom(s, j)
  }

  lemma {:induction false} SurfaceFromSpec(s: string, i: nat)
    requires i <= |s|
    ensures var r := SurfaceFrom(s, i);
      r.None? ==> forall i': nat, j': nat, k': nat :: i <= i' ==> !SurfaceMatch(s, i', j', k')
    ensures var r := SurfaceFrom(s, i);
      r.Some? ==>
        var (p, q) := r.value;
        && i <= p && q <= |s| && SurfaceMatch(s, p, q, SkipSpaces(s, q))
        && forall i': nat, j': nat, k': nat :: i <= i' && SurfaceMatch(s, i', j', k') ==> p <= i' && (i' == p ==> j' <= q)
    decreases |s| - i
  {
    if i == |s| {
    } else if !IsDigit(s[i]) {
      SurfaceFromSpec(s, i + 1);
      assert forall j': nat, k': nat :: !SurfaceMatch(s, i, j', k');
    } else {
      var j := DigitsEnd(s, i);
      var k := SkipSpaces(s, j);
      if UnitAt(s, k) {
        assert SurfaceMatch(s, i, j, k);
        assert forall i': nat, j': nat, k': nat :: i == i' && SurfaceMatch(s, i', j', k') ==> j' <= j;
      } else {
        SurfaceFromSpec(s, j);
        assert forall i': nat, j': nat, k': nat :: i <= i' < j ==> !SurfaceMatch(s, i', j', k') by {
          forall i': nat, j': nat, k': nat | i <= i' < j ensures !SurfaceMatch(s, i', j', k') {
            NoSurfaceInRun(s, i, j, i', j', k');
          }
        }
      }
    }
  }

  /** `message.match(/(\d+)\s*(ha|hectarea)/i)` followed by `parseInt` of the
      first group. */
  function MatchSurface(s: string): Option<nat> {
    match SurfaceFrom(s, 0)
    case None => None
    case Some((i, j)) => Some(DecimalValue(s[i..j]))
  }

  /** The surface found is the value of the digits of the match the engine
      reports, and there is none exactly when the pattern matches nowhere. */
  lemma MatchSurfaceSpec(s: string)
    ensures MatchSurface(s).None? <==> forall i: nat, j: nat, k: nat :: !SurfaceMatch(s, i, j, k)
    ensures MatchSurface(s).Some? ==> exists i: nat, j: nat, k: nat ::
      SurfaceMatch(s, i, j, k) && ReportedSurface(s, i, j) && MatchSurface(s).value == DecimalValue(s[i..j])
  {
    SurfaceFromSpec(s, 0);
    match SurfaceFrom(s, 0)
    case None =>
    case Some((i, j)) =>
      assert SurfaceMatch(s, i, j, SkipSpaces(s, j)) && ReportedSurface(s, i, j);
  }

  // ---------------------------------------------------------------------------
  // Phone: /[\d\s\-\+\(\)]{10,15}/

  /** The character class `[\d\s\-\+\(\)]`. */
  predicate IsPhoneChar(c: char) {
    IsDigit(c) || IsSpace(c) || c == '-' || c == '+' || c == '(' || c == ')'
  }

  /** `s[i..i + n]` consists of phone characters. */
  ghost predicate PhoneRun(s: string, i: nat, n: nat) {
    i + n <= |s| && forall t :: i <= t < i + n ==> IsPhoneChar(s[t])
  }

  /** The run of phone characters at `i` ends after `n` characters. */
  predicate RunEnds(s: string, i: nat, n: nat) {
    i + n == |s| || (i + n < |s| && !IsPhoneChar(s[i + n]))
  }

  /** The match the engine reports: `s[i..i + n]` with `i` the leftmost start of
      ten phone characters and `n` as many as follow there, at most fifteen. */
  ghost predicate ReportedPhone(s: string, i: nat, n: nat) {
    && 10 <= n <= 15
    && PhoneRun(s, i, n)
    && (n < 15 ==> RunEnds(s, i, n))
    && forall i': nat :: i' < i ==> !PhoneRun(s, i', 10)
  }

  /** The number of phone characters from `i` on, counting at most `cap`. */
  function PhoneRunLength(s: string, i: nat, cap: nat): (n: nat)
    requires i <= |s|
    ensures n <= cap && PhoneRun(s, i, n)
    ensures n < cap ==> RunEnds(s, i, n)
    decreases cap
  {
    if cap == 0 || i == |s| || !IsPhoneChar(s[i]) then 0
    else 1 + PhoneRunLength(s, i + 1, cap - 1)
  }

  /** The first match starting at or after `i`, as its start and length. */
  function PhoneFrom(s: string, i: nat): (r: Option<(nat, nat)>)
    requires i <= |s|
    ensures r.Some? ==> i <= r.value.0 && r.value.0 + r.value.1 <= |s|
    decreases |s| - i
  {
    if i + 10 > |s| then None
    else
      var n := PhoneRunLength(s, i, 15);
      if n >= 10 then Some((i, n)) else PhoneFrom(s, i + 1)
  }

  /** No ten phone characters start anywhere in `[lo, hi)`. */
  ghost predicate NoPhoneStart(s: string, lo: nat, hi: nat) {
    forall i': nat :: lo <= i' < hi ==> !PhoneRun(s, i', 10)
  }

  lemma PhoneRunPrefix(s: string, i: nat, m: nat, n: nat)
    requires m <= n && PhoneRun(s, i, n)
    ensures PhoneRun(s, i, m)
  {
  }

  lemma NoPhoneStartExtend(s: string, i: nat, hi: nat)
    requires i < hi && !PhoneRun(s, i, 10) && NoPhoneStart(s, i + 1, hi)
    ensures NoPhoneStart(s, i, hi)
  {
  }

  lemma {:induction false} PhoneFromSpec(s: string, i: nat)
    requires i <= |s|
    ensures var r := PhoneFrom(s, i);
      r.None? ==> NoPhoneStart(s, i, |s| + 1)
    ensures var r := PhoneFrom(s, i);
      r.Some? ==>
        && i <= r.value.0 && 10 <= r.value.1 <= 15 && PhoneRun(s, r.value.0, r.value.1)
        && (r.value.1 < 15 ==> RunEnds(s, r.value.0, r.value.1))
        && NoPhoneStart(s, i, r.value.0)
    decreases |s| - i
  {
    if i + 10 > |s| {
      assert PhoneFrom(s, i).None?;
    } else {
      var n := PhoneRunLength(s, i, 15);
      if n >= 10 {
        assert PhoneFrom(s, i) == Some((i, n));
      } else {
        assert !PhoneRun(s, i, 10);
        var r := PhoneFrom(s, i + 1);
        assert PhoneFrom(s, i) == r;
        PhoneFromSpec(s, i + 1);
        if r.None? {
          NoPhoneStartExtend(s, i, |s| + 1);
        } else {
          NoPhoneStartExtend(s, i, r.value.0);
        }
      }
    }
  }

  /** `message.match(/[\d\s\-\+\(\)]{10,15}/)`: the matched text. */
  function MatchPhone(s: string): Option<string> {
    match PhoneFrom(s, 0)
    case None => None
    case Some((i, n)) => Some(s[i..i + n])
  }

  /** The phone match is the text the engine reports, and there is none
      exactly when no ten phone characters stand together. */
  lemma MatchPhoneSpec(s: string)
    ensures MatchPhone(s).None? <==> forall i: nat :: !PhoneRun(s, i, 10)
    ensures MatchPhone(s).Some? ==> exists i: nat, n: nat :: ReportedPhone(s, i, n) && MatchPhone(s).value == s[i..i + n]
  {
    PhoneFromSpec(s, 0);
    match PhoneFrom(s, 0)
    case None =>
      assert forall i: nat :: !PhoneRun(s, i, 10) by {
        forall i: nat ensures !PhoneRun(s, i, 10) {
          if i > |s| { assert !PhoneRun(s, i, 10); }
        }
      }
    case Some((i, n)) =>
      PhoneRunPrefix(s, i, 10, n);
      assert ReportedPhone(s, i, n);
  }

  /** A reported phone match is 10 to 15 characters long, every one of them a
      phone character. */
  lemma MatchPhoneShape(s: string)
    requires MatchPhone(s).Some?
    ensures 10 <= |MatchPhone(s).value| <= 15
    ensures forall t :: 0 <= t < |MatchPhone(s).value| ==> IsPhoneChar(MatchPhone(s).value[t])
  {
    MatchPhoneSpec(s);
    var i: nat, n: nat :| ReportedPhone(s, i, n) && MatchPhone(s).value == s[i..i + n];
  }
}
