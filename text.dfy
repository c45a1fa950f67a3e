/**
 * The JavaScript string operations the application relies on, over `seq<char>`:
 * `indexOf`, `startsWith`, `split` and `join` with a non-empty separator,
 * `replace` of a string pattern, `toLowerCase` (ASCII letters only), `trim`,
 * the last element of a `split` (`pop()`), and the decimal rendering of an integer.
 */
module Text {
  import opened Wrappers

  /** `pat` occurs in `s` at index `j`. */
  predicate OccursAt(s: string, pat: string, j: nat) {
    j + |pat| <= |s| && s[j..j + |pat|] == pat
  }

  predicate StartsWith(s: string, prefix: string) {
    |prefix| <= |s| && s[..|prefix|] == prefix
  }

  /** The first index at or after `i` at which `pat` occurs. */
  function IndexFrom(s: string, pat: string, i: nat): (r: Option<nat>)
    ensures r.Some? ==> i <= r.value && OccursAt(s, pat, r.value)
    decreases |s| - i
  {
    if i + |pat| > |s| then None
    else if s[i..i + |pat|] == pat then Some(i)
    else IndexFrom(s, pat, i + 1)
  }

  /** `pat` occurs nowhere from `i` up to the index found (anywhere from `i` when none is found). */
  lemma {:induction false} IndexFromIsFirst(s: string, pat: string, i: nat)
    ensures var r := IndexFrom(s, pat, i);
      forall j: nat :: i <= j && (r.None? || j < r.value) ==> !OccursAt(s, pat, j)
    decreases |s| - i
  {
    if i + |pat| <= |s| && s[i..i + |pat|] != pat {
      IndexFromIsFirst(s, pat, i + 1);
    }
  }

  /** `s.indexOf(pat)`: the first index at which `pat` occurs, or None (-1). */
  function IndexOf(s: string, pat: string): (r: Option<nat>)
    ensures r.Some? ==> OccursAt(s, pat, r.value)
  {
    IndexFrom(s, pat, 0)
  }

  /** `indexOf` finds the first occurrence: there is none before it, and none at all when it fails. */
  lemma IndexOfIsFirst(s: string, pat: string)
    ensures forall j: nat :: (IndexOf(s, pat).None? || j < IndexOf(s, pat).value) ==> !OccursAt(s, pat, j)
  {
    IndexFromIsFirst(s, pat, 0);
  }

  predicate Contains(s: string, pat: string) {
    IndexOf(s, pat).Some?
  }

  /** `s.split(sep)` for a non-empty separator: the pieces between successive
      leftmost non-overlapping occurrences of `sep`. */
  function Split(s: string, sep: string): (parts: seq<string>)
    requires |sep| > 0
    ensures |parts| >= 1
    decreases |s|
  {
    match IndexOf(s, sep)
    case None => [s]
    case Some(k) => [s[..k]] + Split(s[k + |sep|..], sep)
  }

  /** The split has two or more pieces exactly when the separator occurs. */
  lemma SplitHasTwoPiecesIff(s: string, sep: string)
    requires |sep| > 0
    ensures |Split(s, sep)| >= 2 <==> Contains(s, sep)
  {
  }

  /** No occurrence of `sep` lies wholly before the first one. */
  lemma NoEarlierOccurrence(s: string, sep: string, k: nat)
    requires |sep| > 0 && IndexOf(s, sep) == Some(k)
    ensures !Contains(s[..k], sep)
  {
    IndexOfIsFirst(s, sep);
    var p := s[..k];
    var t := IndexOf(p, sep);
    if t.Some? {
      var j := t.value;
      assert OccursAt(p, sep, j);
      assert p[j..j + |sep|] == s[j..j + |sep|];
      assert OccursAt(s, sep, j) && j < k;
      assert false;
    }
  }

  /** No piece of a split contains the separator. */
  lemma {:induction false} SplitPiecesLackSeparator(s: string, sep: string)
    requires |sep| > 0
    ensures forall i :: 0 <= i < |Split(s, sep)| ==> !Contains(Split(s, sep)[i], sep)
    decreases |s|
  {
    match IndexOf(s, sep)
    case None =>
    case Some(k) =>
      NoEarlierOccurrence(s, sep, k);
      SplitPiecesLackSeparator(s[k + |sep|..], sep);
  }

  /** `parts.join(sep)`. */
  function Join(parts: seq<string>, sep: string): string
    decreases |parts|
  {
    if |parts| == 0 then ""
    else if |parts| == 1 then parts[0]
    else parts[0] + sep + Join(parts[1..], sep)
  }

  /** Joining a piece in front of at least one more puts the separator between them. */
  lemma JoinCons(head: string, tail: seq<string>, sep: string)
    requires |tail| >= 1
    ensures Join([head] + tail, sep) == head + sep + Join(tail, sep)
  {
    assert ([head] + tail)[1..] == tail;
  }

  /** One step of a split: the piece before the first separator, then the split of the rest. */
  lemma SplitStep(s: string, sep: string, k: nat)
    requires |sep| > 0 && IndexOf(s, sep) == Some(k)
    ensures Split(s, sep) == [s[..k]] + Split(s[k + |sep|..], sep)
  {
  }

  /** A string is its part before an occurrence of `sep` at `k`, `sep`, and the rest. */
  lemma AroundOccurrence(s: string, sep: string, k: nat)
    requires OccursAt(s, sep, k)
    ensures s == s[..k] + sep + s[k + |sep|..]
  {
    assert s == s[..k] + s[k..k + |sep|] + s[k + |sep|..];
  }

  /** Joining the pieces of a split with the same separator gives back the string. */
  lemma {:induction false} JoinSplit(s: string, sep: string)
    requires |sep| > 0
    ensures Join(Split(s, sep), sep) == s
    decreases |s|
  {
    match IndexOf(s, sep)
    case None =>
    case Some(k) =>
      var rest := s[k + |sep|..];
      SplitStep(s, sep, k);
      JoinSplit(rest, sep);
      JoinCons(s[..k], Split(rest, sep), sep);
      AroundOccurrence(s, sep, k);
  }

  /** `split(sep).slice(1).join(sep)` is exactly the suffix after the first separator. */
  lemma SplitTailJoin(s: string, sep: string, k: nat)
    requires |sep| > 0 && IndexOf(s, sep) == Some(k)
    ensures Split(s, sep)[0] == s[..k]
    ensures Join(Split(s, sep)[1..], sep) == s[k + |sep|..]
  {
    SplitStep(s, sep, k);
    JoinSplit(s[k + |sep|..], sep);
    assert Split(s, sep)[1..] == Split(s[k + |sep|..], sep);
  }

  /** `s.replace(pat, rep)` with a string pattern: only the first occurrence is replaced. */
  function ReplaceFirst(s: string, pat: string, rep: string): (r: string)
    ensures !Contains(s, pat) ==> r == s
    ensures StartsWith(s, pat) ==> r == rep + s[|pat|..]
  {
    match IndexOf(s, pat)
    case None => s
    case Some(k) =>
      IndexOfIsFirst(s, pat);
      assert StartsWith(s, pat) ==> OccursAt(s, pat, 0);
      s[..k] + rep + s[k + |pat|..]
  }

  predicate EndsWith(s: string, suffix: string) {
    |suffix| <= |s| && s[|s| - |suffix|..] == suffix
  }

  /** A suffix of the right operand is a suffix of a concatenation. */
  lemma EndsWithConcat(a: string, b: string, suffix: string)
    requires EndsWith(b, suffix)
    ensures EndsWith(a + b, suffix)
  {
    assert (a + b)[|a + b| - |suffix|..] == b[|b| - |suffix|..];
  }

  /** A join ends with its last piece. */
  lemma {:induction false} JoinEndsWithLast(parts: seq<string>, sep: string)
    requires |parts| >= 1
    ensures EndsWith(Join(parts, sep), parts[|parts| - 1])
    decreases |parts|
  {
    if |parts| > 1 {
      JoinEndsWithLast(parts[1..], sep);
      EndsWithConcat(parts[0] + sep, Join(parts[1..], sep), parts[|parts| - 1]);
    }
  }

  lemma JoinedEndsWithLast(s: string, parts: seq<string>, sep: string)
    requires |parts| >= 1 && Join(parts, sep) == s
    ensures EndsWith(s, parts[|parts| - 1])
  {
    JoinEndsWithLast(parts, sep);
  }

  /** The last piece of a split ends the string. */
  lemma LastPieceIsSuffix(s: string, sep: string)
    requires |sep| > 0
    ensures var parts := Split(s, sep); EndsWith(s, parts[|parts| - 1])
  {
    JoinSplit(s, sep);
    JoinedEndsWithLast(s, Split(s, sep), sep);
  }

  /** `s.split(sep).pop()`. */
  function LastSegment(s: string, sep: string): string
    requires |sep| > 0
  {
    var parts := Split(s, sep);
    parts[|parts| - 1]
  }

  /** The last piece of a split is the last piece of the split after the first separator. */
  lemma LastSegmentStep(s: string, sep: string, k: nat)
    requires |sep| > 0 && IndexOf(s, sep) == Some(k)
    ensures LastSegment(s, sep) == LastSegment(s[k + |sep|..], sep)
  {
    SplitStep(s, sep, k);
    var parts := Split(s[k + |sep|..], sep);
    assert ([s[..k]] + parts)[|parts|] == parts[|parts| - 1];
  }

  /** Without a separator the last piece is the whole string. */
  lemma LastSegmentWithoutSeparator(s: string, sep: string)
    requires |sep| > 0 && !Contains(s, sep)
    ensures LastSegment(s, sep) == s
  {
    assert Split(s, sep) == [s];
  }

  /** When `s` holds the separator, the last piece comes right after an occurrence of it. */
  lemma {:induction false} LastSegmentFollowsSeparator(s: string, sep: string)
    requires |sep| > 0 && Contains(s, sep)
    ensures var r := LastSegment(s, sep);
      |r| + |sep| <= |s| && s[|s| - |r| - |sep|..|s| - |r|] == sep
    decreases |s|
  {
    var k := IndexOf(s, sep).value;
    var rest := s[k + |sep|..];
    LastSegmentStep(s, sep, k);
    var r := LastSegment(rest, sep);
    if Contains(rest, sep) {
      LastSegmentFollowsSeparator(rest, sep);
      assert s[|s| - |r| - |sep|..|s| - |r|] == rest[|rest| - |r| - |sep|..|rest| - |r|];
    } else {
      LastSegmentWithoutSeparator(rest, sep);
      assert OccursAt(s, sep, k);
    }
  }

  /** The last piece has no separator in it and ends `s`, right after an
      occurrence of the separator (for a one-character separator, the last
      one); without a separator it is `s`. */
  lemma LastSegmentIsSuffix(s: string, sep: string)
    requires |sep| > 0
    ensures var r := LastSegment(s, sep);
      && !Contains(r, sep) && EndsWith(s, r) && (!Contains(s, sep) ==> r == s)
      && (Contains(s, sep) ==> |r| + |sep| <= |s| && s[|s| - |r| - |sep|..|s| - |r|] == sep)
  {
    SplitPiecesLackSeparator(s, sep);
    LastPieceIsSuffix(s, sep);
    if Contains(s, sep) {
      LastSegmentFollowsSeparator(s, sep);
    }
  }

  /** `toLowerCase` on ASCII letters; every other character is kept. */
  function LowerChar(c: char): (d: char)
    ensures 'A' <= c <= 'Z' ==> d as int == c as int + 32
    ensures !('A' <= c <= 'Z') ==> d == c
  {
    if 'A' <= c <= 'Z' then (c as int + 32) as char else c
  }

  function UpperChar(c: char): char {
    if 'a' <= c <= 'z' then (c as int - 32) as char else c
  }

  function ToLower(s: string): (r: string)
    ensures |r| == |s| && forall i :: 0 <= i < |s| ==> r[i] == LowerChar(s[i])
  {
    seq(|s|, i requires 0 <= i < |s| => LowerChar(s[i]))
  }

  function ToUpper(s: string): (r: string)
    ensures |r| == |s| && forall i :: 0 <= i < |s| ==> r[i] == UpperChar(s[i])
  {
    seq(|s|, i requires 0 <= i < |s| => UpperChar(s[i]))
  }

  /** Lower-casing undoes upper-casing letter by letter. */
  lemma LowerOfUpper(s: string)
    ensures ToLower(ToUpper(s)) == ToLower(s)
  {
  }

  /** The characters `String.prototype.trim` strips: ECMAScript WhiteSpace
      (tab, vertical tab, form feed, no-break space, byte order mark and every
      space separator) and LineTerminator (line feed, carriage return,
      line and paragraph separators). */
  predicate IsWhitespace(c: char) {
    c == '\t' || c == '\n' || c == '\U{000B}' || c == '\U{000C}' || c == '\r' || c == ' '
    || c == '\U{00A0}' || c == '\U{1680}' || ('\U{2000}' <= c <= '\U{200A}')
    || c == '\U{2028}' || c == '\U{2029}' || c == '\U{202F}' || c == '\U{205F}'
    || c == '\U{3000}' || c == '\U{FEFF}'
  }

  predicate AllWhitespace(s: string) {
    forall i :: 0 <= i < |s| ==> IsWhitespace(s[i])
  }

  function TrimStart(s: string): string
    decreases |s|
  {
    if |s| > 0 && IsWhitespace(s[0]) then TrimStart(s[1..]) else s
  }

  function TrimEnd(s: string): string
    decreases |s|
  {
    if |s| > 0 && IsWhitespace(s[|s| - 1]) then TrimEnd(s[..|s| - 1]) else s
  }

  /** `TrimStart` cuts a whitespace prefix and stops at the first other character. */
  lemma {:induction false} TrimStartCutsWhitespace(s: string)
    ensures var r := TrimStart(s);
      && |r| <= |s| && r == s[|s| - |r|..]
      && AllWhitespace(s[..|s| - |r|])
      && (r == [] || !IsWhitespace(r[0]))
    decreases |s|
  {
    if |s| > 0 && IsWhitespace(s[0]) {
      TrimStartCutsWhitespace(s[1..]);
      var r := TrimStart(s[1..]);
      assert s[1..][|s| - 1 - |r|..] == s[|s| - |r|..];
      assert forall k :: 1 <= k < |s| - |r| ==> s[k] == s[1..][..|s| - 1 - |r|][k - 1];
    }
  }

  /** `TrimEnd` cuts a whitespace suffix and stops at the last other character. */
  lemma {:induction false} TrimEndCutsWhitespace(s: string)
    ensures var r := TrimEnd(s);
      && |r| <= |s| && r == s[..|r|]
      && AllWhitespace(s[|r|..])
      && (r == [] || !IsWhitespace(r[|r| - 1]))
    decreases |s|
  {
    if |s| > 0 && IsWhitespace(s[|s| - 1]) {
      TrimEndCutsWhitespace(s[..|s| - 1]);
      var r := TrimEnd(s[..|s| - 1]);
      assert s[..|s| - 1][..|r|] == s[..|r|];
      assert forall k :: |r| <= k < |s| - 1 ==> s[k] == s[..|s| - 1][|r|..][k - |r|];
    }
  }

  /** `s.trim()`. */
  function Trim(s: string): string {
    TrimEnd(TrimStart(s))
  }

  /** The trimmed string is a slice of `s` with only whitespace cut off and
      none left at either end; it is empty exactly when `s` is all whitespace. */
  lemma TrimIsSlice(s: string)
    ensures exists i, j :: (0 <= i <= j <= |s| && Trim(s) == s[i..j]
      && AllWhitespace(s[..i]) && AllWhitespace(s[j..]))
    ensures Trim(s) == [] || (!IsWhitespace(Trim(s)[0]) && !IsWhitespace(Trim(s)[|Trim(s)| - 1]))
    ensures Trim(s) == [] <==> AllWhitespace(s)
  {
    var t := TrimStart(s);
    TrimStartCutsWhitespace(s);
    TrimEndCutsWhitespace(t);
    var i := |s| - |t|;
    var j := i + |TrimEnd(t)|;
    assert Trim(s) == s[i..j];
    assert s[j..] == t[|TrimEnd(t)|..];
    if Trim(s) == [] {
      assert s == s[..i] + s[j..];
    } else {
      assert !IsWhitespace(s[i]);
    }
  }

  function DigitChar(d: nat): (c: char)
    requires d < 10
    ensures '0' <= c <= '9' && c as int - '0' as int == d
  {
    ('0' as int + d) as char
  }

  /** Decimal digits of `n` with no leading zero, as JavaScript prints an integer. */
  function NatToString(n: nat): (r: string)
    ensures |r| >= 1 && forall i :: 0 <= i < |r| ==> '0' <= r[i] <= '9'
    ensures |r| > 1 ==> r[0] != '0'
    decreases n
  {
    if n < 10 then [DigitChar(n)] else NatToString(n / 10) + [DigitChar(n % 10)]
  }

  function IntToString(n: int): string {
    if n < 0 then "-" + NatToString(-n) else NatToString(n)
  }

  /** The value of a string of decimal digits. */
  function DigitsValue(s: string): nat
    requires forall i :: 0 <= i < |s| ==> '0' <= s[i] <= '9'
    decreases |s|
  {
    if |s| == 0 then 0 else 10 * DigitsValue(s[..|s| - 1]) + (s[|s| - 1] as int - '0' as int)
  }

  /** Reading back the printed digits gives the number. */
  lemma {:induction false} NatToStringRoundTrip(n: nat)
    ensures DigitsValue(NatToString(n)) == n
    decreases n
  {
    if n >= 10 {
      NatToStringRoundTrip(n / 10);
      var r := NatToString(n);
      assert r == NatToString(n / 10) + [DigitChar(n % 10)];
      assert r[..|r| - 1] == NatToString(n / 10);
      assert DigitsValue(r) == 10 * (n / 10) + n % 10;
    }
  }
}
