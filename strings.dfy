/** String primitives the two core functions are built from, with JavaScript's
    meaning: the whitespace set of `trim()` and `\s`, `trim`, `split` and `join`
    on a one-character separator, `indexOf` of a substring, and
    `String.prototype.replace` with a string pattern (first occurrence only,
    `$`-patterns in the replacement expanded). */
module Strings {

  datatype Option<T> = None | Some(value: T) {
    /** `x ?? default` */
    function GetOr(default: T): T {
      match this
      case Some(v) => v
      case None => default
    }
  }

  // ---------------------------------------------------------------------------
  // Whitespace and trim

  /** ECMAScript WhiteSpace and LineTerminator code points: the set `trim()`
      removes and the regular-expression class `\s` matches. */
  predicate IsWs(c: char) {
    || c == '\t' || c == '\n' || c == '\U{B}' || c == '\U{C}' || c == '\r' || c == ' '
    || c == '\U{A0}' || c == '\U{1680}' || ('\U{2000}' <= c <= '\U{200A}')
    || c == '\U{2028}' || c == '\U{2029}' || c == '\U{202F}' || c == '\U{205F}'
    || c == '\U{3000}' || c == '\U{FEFF}'
  }

  predicate AllWs(s: string) {
    forall i :: 0 <= i < |s| ==> IsWs(s[i])
  }

  /** Neither end of `s` is whitespace. */
  predicate Trimmed(s: string) {
    s == [] || (!IsWs(s[0]) && !IsWs(s[|s| - 1]))
  }

  /** The index of the first character of `s` at or after `i` that is not
      whitespace, or `|s|` when there is none. */
  function SkipWs(s: string, i: nat): (k: nat)
    requires i <= |s|
    ensures i <= k <= |s|
    ensures k < |s| ==> !IsWs(s[k])
    decreases |s| - i
  {
    if i < |s| && IsWs(s[i]) then SkipWs(s, i + 1) else i
  }

  /** Everything `SkipWs` skips is whitespace. */
  lemma {:induction false} SkipWsBlank(s: string, i: nat)
    requires i <= |s|
    ensures forall j :: i <= j < SkipWs(s, i) ==> IsWs(s[j])
    decreases |s| - i
  {
    if i < |s| && IsWs(s[i]) {
      SkipWsBlank(s, i + 1);
    }
  }

  /** The index just past the last character of `s[lo..j]` that is not
      whitespace, or `lo` when there is none. */
  function BackWs(s: string, lo: nat, j: nat): (e: nat)
    requires lo <= j <= |s|
    ensures lo <= e <= j
    ensures lo < e ==> !IsWs(s[e - 1])
    decreases j
  {
    if lo < j && IsWs(s[j - 1]) then BackWs(s, lo, j - 1) else j
  }

  /** Everything `BackWs` steps back over is whitespace. */
  lemma {:induction false} BackWsBlank(s: string, lo: nat, j: nat)
    requires lo <= j <= |s|
    ensures forall x :: BackWs(s, lo, j) <= x < j ==> IsWs(s[x])
    decreases j
  {
    if lo < j && IsWs(s[j - 1]) {
      BackWsBlank(s, lo, j - 1);
    }
  }

  /** `SkipWs` stops at the first character that is not whitespace. */
  lemma {:induction false} SkipWsAt(s: string, i: nat, k: nat)
    requires i <= k < |s| && !IsWs(s[k])
    requires forall j :: i <= j < k ==> IsWs(s[j])
    ensures SkipWs(s, i) == k
    decreases k - i
  {
    if i < k {
      SkipWsAt(s, i + 1, k);
    }
  }

  /** `BackWs` stops after the last character that is not whitespace. */
  lemma {:induction false} BackWsAt(s: string, lo: nat, e: nat, j: nat)
    requires lo < e <= j <= |s| && !IsWs(s[e - 1])
    requires forall x :: e <= x < j ==> IsWs(s[x])
    ensures BackWs(s, lo, j) == e
    decreases j
  {
    if e < j {
      BackWsAt(s, lo, e, j - 1);
    }
  }

  /** `s.trimStart()`: `s` without its leading whitespace. */
  function TrimStart(s: string): (r: string)
    ensures |r| <= |s| && r == s[|s| - |r|..]
    ensures r == [] || !IsWs(r[0])
  {
    s[SkipWs(s, 0)..]
  }

  /** What `trimStart` drops is whitespace. */
  lemma TrimStartDrops(s: string)
    ensures AllWs(s[..|s| - |TrimStart(s)|])
  {
    var k := SkipWs(s, 0);
    assert |s| - |TrimStart(s)| == k;
    SkipWsBlank(s, 0);
    forall j | 0 <= j < k ensures IsWs(s[..k][j]) {
      assert s[..k][j] == s[j];
    }
  }

  /** `trimStart` drops exactly a blank prefix ending before a character that is
      not whitespace. */
  lemma TrimStartAt(s: string, i: nat)
    requires i < |s| && AllWs(s[..i]) && !IsWs(s[i])
    ensures TrimStart(s) == s[i..]
  {
    forall j | 0 <= j < i ensures IsWs(s[j]) {
      assert s[..i][j] == s[j];
    }
    SkipWsAt(s, 0, i);
  }

  /** `s.trim()`: `s` without its leading and trailing whitespace. */
  function Trim(s: string): (r: string)
    ensures Trimmed(r)
  {
    var k := SkipWs(s, 0);
    s[k..BackWs(s, k, |s|)]
  }

  /** `trim` keeps the middle of `s` between two blank margins: the margins
      end where the first and the last character that is not whitespace
      stand. */
  lemma TrimMargins(s: string)
    ensures
      var k := SkipWs(s, 0);
      var e := BackWs(s, k, |s|);
      && Trim(s) == s[k..e]
      && (forall j :: 0 <= j < k ==> IsWs(s[j]))
      && (forall j :: e <= j < |s| ==> IsWs(s[j]))
  {
    SkipWsBlank(s, 0);
    BackWsBlank(s, SkipWs(s, 0), |s|);
  }

  /** `trim` returns the empty string exactly for blank input. */
  lemma TrimBlank(s: string)
    ensures Trim(s) == [] <==> AllWs(s)
  {
    var k := SkipWs(s, 0);
    TrimMargins(s);
    if Trim(s) == [] {
      forall j | 0 <= j < |s| ensures IsWs(s[j]) {
        if j < k {} else {}
      }
    }
  }

  /** `trim` is determined by where the blank margins end: any split of `s` into
      a blank prefix, a non-empty core with no whitespace at either end, and a
      blank suffix yields that core. */
  lemma TrimUnique(s: string, i: nat, j: nat)
    requires i < j <= |s| && AllWs(s[..i]) && AllWs(s[j..]) && Trimmed(s[i..j])
    ensures Trim(s) == s[i..j]
  {
    assert s[i..j][0] == s[i] && s[i..j][j - i - 1] == s[j - 1];
    forall x | 0 <= x < i ensures IsWs(s[x]) {
      assert s[..i][x] == s[x];
    }
    forall x | j <= x < |s| ensures IsWs(s[x]) {
      assert s[j..][x - j] == s[x];
    }
    SkipWsAt(s, 0, i);
    BackWsAt(s, i, j, |s|);
  }

  /** Whitespace around a string does not change its trim. */
  lemma TrimPadded(a: string, s: string, b: string)
    requires AllWs(a) && AllWs(b)
    ensures Trim(a + s + b) == Trim(s)
  {
    if AllWs(s) {
      AllWsConcat(a, s, b);
      TrimBlank(a + s + b);
      TrimBlank(s);
    } else {
      TrimPaddedCore(a, s, b);
    }
  }

  lemma TrimPaddedCore(a: string, s: string, b: string)
    requires AllWs(a) && AllWs(b) && !AllWs(s)
    ensures Trim(a + s + b) == Trim(s)
  {
    var t := a + s + b;
    var k := SkipWs(s, 0);
    var e := BackWs(s, k, |s|);
    TrimNotBlank(s);
    TrimMargins(s);
    SkipPadded(a, s, b, k);
    BackPadded(a, s, b, k, e);
    SliceOfMiddle(a, s, b, k, e);
  }

  /** Whitespace before `s` moves where the first character that is not
      whitespace stands by its length. */
  lemma SliceOfMiddle(a: string, s: string, b: string, k: nat, e: nat)
    requires k <= e <= |s|
    ensures (a + s + b)[|a| + k..|a| + e] == s[k..e]
  {
  }

  lemma TrimNotBlank(s: string)
    requires !AllWs(s)
    ensures SkipWs(s, 0) < BackWs(s, SkipWs(s, 0), |s|)
  {
    TrimBlank(s);
  }

  lemma SkipPadded(a: string, s: string, b: string, k: nat)
    requires AllWs(a) && k < |s| && !IsWs(s[k])
    requires forall j :: 0 <= j < k ==> IsWs(s[j])
    ensures SkipWs(a + s + b, 0) == |a| + k
  {
    var t := a + s + b;
    forall x | 0 <= x < |a| + k ensures IsWs(t[x]) {
      if x < |a| { assert t[x] == a[x]; } else { assert t[x] == s[x - |a|]; }
    }
    assert t[|a| + k] == s[k];
    SkipWsAt(t, 0, |a| + k);
  }

  /** Whitespace after `s` does not move where its last character that is not
      whitespace stands. */
  lemma BackPadded(a: string, s: string, b: string, k: nat, e: nat)
    requires AllWs(b) && k < e <= |s| && !IsWs(s[e - 1])
    requires forall j :: e <= j < |s| ==> IsWs(s[j])
    ensures BackWs(a + s + b, |a| + k, |a + s + b|) == |a| + e
  {
    var t := a + s + b;
    forall x | |a| + e <= x < |t| ensures IsWs(t[x]) {
      if x < |a| + |s| { assert t[x] == s[x - |a|]; } else { assert t[x] == b[x - |a| - |s|]; }
    }
    assert t[|a| + e - 1] == s[e - 1];
    BackWsAt(t, |a| + k, |a| + e, |t|);
  }

  lemma AllWsConcat(a: string, s: string, b: string)
    requires AllWs(a) && AllWs(s) && AllWs(b)
    ensures AllWs(a + s + b)
  {
    var t := a + s + b;
    forall i | 0 <= i < |t| ensures IsWs(t[i]) {
      if i < |a| { assert t[i] == a[i]; }
      else if i < |a| + |s| { assert t[i] == s[i - |a|]; }
      else { assert t[i] == b[i - |a| - |s|]; }
    }
  }

  /** `trim` leaves a trimmed string alone. */
  lemma TrimOfTrimmed(s: string)
    requires Trimmed(s)
    ensures Trim(s) == s
  {
    if s != [] {
      assert s[..0] == [] && s[|s|..] == [] && s[0..|s|] == s;
      TrimUnique(s, 0, |s|);
    }
  }

  /** A character absent from `s` is absent from its trim. */
  lemma TrimKeepsOut(s: string, c: char)
    requires c !in s
    ensures c !in Trim(s)
  {
  }

  // ---------------------------------------------------------------------------
  // split and join on one character

  /** `s.split(c)` for a one-character separator: the maximal pieces between
      occurrences of `c`, always at least one. */
  function SplitOn(s: string, c: char): (parts: seq<string>)
    ensures |parts| >= 1
  {
    if s == [] then [[]]
    else
      var rest := SplitOn(s[1..], c);
      if s[0] == c then [[]] + rest else [[s[0]] + rest[0]] + rest[1..]
  }

  /** No piece of a split holds the separator. */
  lemma {:induction false} SplitPieces(s: string, c: char)
    ensures forall i :: 0 <= i < |SplitOn(s, c)| ==> c !in SplitOn(s, c)[i]
  {
    if s != [] {
      SplitPieces(s[1..], c);
      var rest := SplitOn(s[1..], c);
      if s[0] != c {
        assert forall i :: 1 <= i < |SplitOn(s, c)| ==> SplitOn(s, c)[i] == rest[i];
      }
    }
  }

  /** `parts.join(sep)` (the empty array joins to the empty string). */
  function Join(parts: seq<string>, sep: string): string {
    if |parts| == 0 then []
    else if |parts| == 1 then parts[0]
    else parts[0] + sep + Join(parts[1..], sep)
  }

  lemma {:induction false} JoinAppend(a: seq<string>, b: seq<string>, sep: string)
    requires |a| >= 1 && |b| >= 1
    ensures Join(a + b, sep) == Join(a, sep) + sep + Join(b, sep)
  {
    if |a| == 1 {
      assert (a + b)[1..] == b;
    } else {
      assert (a + b)[1..] == a[1..] + b;
      JoinAppend(a[1..], b, sep);
    }
  }

  /** A string without the separator is one piece. */
  lemma {:induction false} SplitWithout(s: string, c: char)
    requires c !in s
    ensures SplitOn(s, c) == [s]
  {
    if s != [] {
      SplitWithout(s[1..], c);
      assert [s[0]] + s[1..] == s;
    }
  }

  /** Splitting distributes over a separator occurrence. */
  lemma {:induction false} SplitAround(a: string, b: string, c: char)
    ensures SplitOn(a + [c] + b, c) == SplitOn(a, c) + SplitOn(b, c)
  {
    var s := a + [c] + b;
    if a == [] {
      assert s[0] == c && s[1..] == b;
    } else {
      assert s[0] == a[0] && s[1..] == a[1..] + [c] + b;
      SplitAround(a[1..], b, c);
      var ra := SplitOn(a[1..], c);
      if a[0] != c {
        assert (ra + SplitOn(b, c))[0] == ra[0];
        assert (ra + SplitOn(b, c))[1..] == ra[1..] + SplitOn(b, c);
      }
    }
  }

  /** Splitting at the first occurrence: the first piece is everything before it. */
  lemma SplitAtFirst(s: string, c: char, i: nat)
    requires i < |s| && s[i] == c && c !in s[..i]
    ensures SplitOn(s, c) == [s[..i]] + SplitOn(s[i + 1..], c)
  {
    assert s == s[..i] + [c] + s[i + 1..];
    SplitAround(s[..i], s[i + 1..], c);
    SplitWithout(s[..i], c);
  }

  /** join undoes split. */
  lemma {:induction false} JoinSplit(s: string, c: char)
    ensures Join(SplitOn(s, c), [c]) == s
  {
    if c !in s {
      SplitWithout(s, c);
    } else {
      var i :| 0 <= i < |s| && s[i] == c;
      var i' := FirstIndex(s, c, i);
      SplitAtFirst(s, c, i');
      JoinSplit(s[i' + 1..], c);
      JoinAppend([s[..i']], SplitOn(s[i' + 1..], c), [c]);
      assert s == s[..i'] + [c] + s[i' + 1..];
    }
  }

  /** split undoes join when no part holds the separator. */
  lemma {:induction false} SplitJoin(parts: seq<string>, c: char)
    requires |parts| >= 1
    requires forall i :: 0 <= i < |parts| ==> c !in parts[i]
    ensures SplitOn(Join(parts, [c]), c) == parts
  {
    if |parts| == 1 {
      SplitWithout(parts[0], c);
    } else {
      SplitJoin(parts[1..], c);
      SplitAround(parts[0], Join(parts[1..], [c]), c);
      SplitWithout(parts[0], c);
      assert parts == [parts[0]] + parts[1..];
    }
  }

  /** The position of the first `c` at or before a known occurrence `i`. */
  lemma {:induction false} FirstIndex(s: string, c: char, i: nat) returns (k: nat)
    requires i < |s| && s[i] == c
    ensures k <= i && s[k] == c && c !in s[..k]
  {
    if c in s[..i] {
      var j :| 0 <= j < i && s[..i][j] == c;
      k := FirstIndex(s, c, j);
    } else {
      k := i;
    }
  }

  /** The first piece of a split is the text before the first separator, and
      joining the remaining pieces gives back everything after it. */
  lemma SplitHeadTail(s: string, c: char, i: nat)
    requires i < |s| && s[i] == c && c !in s[..i]
    ensures |SplitOn(s, c)| > 1
    ensures SplitOn(s, c)[0] == s[..i]
    ensures Join(SplitOn(s, c)[1..], [c]) == s[i + 1..]
  {
    SplitAtFirst(s, c, i);
    assert SplitOn(s, c)[1..] == SplitOn(s[i + 1..], c);
    JoinSplit(s[i + 1..], c);
  }

  /** There is more than one piece exactly when the separator occurs. */
  lemma SplitCount(s: string, c: char)
    ensures |SplitOn(s, c)| > 1 <==> c in s
  {
    if c in s {
      var i :| 0 <= i < |s| && s[i] == c;
      var k := FirstIndex(s, c, i);
      SplitHeadTail(s, c, k);
    } else {
      SplitWithout(s, c);
    }
  }

  // ---------------------------------------------------------------------------
  // Substring search and replace

  predicate OccursAt(s: string, pat: string, i: nat) {
    i + |pat| <= |s| && s[i..i + |pat|] == pat
  }

  /** The first position at or after `i` where `pat` occurs, if any. */
  function FindFrom(s: string, pat: string, i: nat): (r: Option<nat>)
    requires i <= |s|
    ensures r.Some? ==> i <= r.value && r.value + |pat| <= |s|
    decreases |s| - i
  {
    if OccursAt(s, pat, i) then Some(i)
    else if i == |s| then None
    else FindFrom(s, pat, i + 1)
  }

  lemma {:induction false} FindFromSpec(s: string, pat: string, i: nat)
    requires i <= |s|
    ensures var r := FindFrom(s, pat, i);
      && (r.Some? ==> OccursAt(s, pat, r.value))
      && (r.Some? ==> forall j: nat :: i <= j < r.value ==> !OccursAt(s, pat, j))
      && (r.None? ==> forall j: nat :: i <= j <= |s| ==> !OccursAt(s, pat, j))
    decreases |s| - i
  {
    if !OccursAt(s, pat, i) && i < |s| {
      FindFromSpec(s, pat, i + 1);
    }
  }

  /** `s.indexOf(pat)`: the first position where `pat` occurs, if any. */
  function Find(s: string, pat: string): (r: Option<nat>)
    ensures r.Some? ==> r.value + |pat| <= |s|
  {
    FindFrom(s, pat, 0)
  }

  /** `Find` reports the first occurrence, and `None` only when there is none. */
  lemma FindSpec(s: string, pat: string)
    ensures var r := Find(s, pat);
      && (r.Some? ==> OccursAt(s, pat, r.value))
      && (r.Some? ==> forall j: nat :: j < r.value ==> !OccursAt(s, pat, j))
      && (r.None? ==> forall j: nat :: j <= |s| ==> !OccursAt(s, pat, j))
  {
    FindFromSpec(s, pat, 0);
  }

  /** A pattern that starts with a character absent from `a` is first found
      right after `a`. */
  lemma FindAfter(a: string, pat: string, b: string)
    requires |pat| > 0 && pat[0] !in a
    ensures Find(a + pat + b, pat) == Some(|a|)
  {
    var s := a + pat + b;
    assert OccursAt(s, pat, |a|);
    forall j: nat | j < |a| ensures !OccursAt(s, pat, j) {
      if j + |pat| <= |s| { assert s[j..j + |pat|][0] == s[j] == a[j]; }
    }
    FindFirst(s, pat, |a|);
  }

  /** A pattern that starts with a character absent from `s` does not occur in it. */
  lemma FindNone(s: string, pat: string)
    requires |pat| > 0 && pat[0] !in s
    ensures Find(s, pat) == None
  {
    forall j: nat ensures !OccursAt(s, pat, j) {
      if j + |pat| <= |s| { assert s[j..j + |pat|][0] == s[j]; }
    }
    FindSpec(s, pat);
  }

  /** The replacement text that `replace` inserts for one match (ECMAScript
      GetSubstitution with no capture groups): `$$` is `$`, `$&` the match, `` $` ``
      the text before it, `$'` the text after it; any other `$` is literal. */
  function Substitution(rep: string, matched: string, before: string, after: string): (r: string)
    ensures '$' !in rep ==> r == rep
  {
    if |rep| >= 2 && rep[0] == '$' && rep[1] == '$' then "$" + Substitution(rep[2..], matched, before, after)
    else if |rep| >= 2 && rep[0] == '$' && rep[1] == '&' then matched + Substitution(rep[2..], matched, before, after)
    else if |rep| >= 2 && rep[0] == '$' && rep[1] == '`' then before + Substitution(rep[2..], matched, before, after)
    else if |rep| >= 2 && rep[0] == '$' && rep[1] == '\'' then after + Substitution(rep[2..], matched, before, after)
    else if rep == [] then []
    else [rep[0]] + Substitution(rep[1..], matched, before, after)
  }

  /** `s.replace(pat, rep)` with a string pattern: only the first occurrence is
      replaced; without an occurrence `s` is returned as it is. */
  function ReplaceFirst(s: string, pat: string, rep: string): (r: string)
    ensures Find(s, pat).None? ==> r == s
    ensures Find(s, pat).Some? && '$' !in rep ==>
      var i := Find(s, pat).value;
      r == s[..i] + rep + s[i + |pat|..]
  {
    match Find(s, pat)
    case None => s
    case Some(i) => s[..i] + Substitution(rep, pat, s[..i], s[i + |pat|..]) + s[i + |pat|..]
  }

  /** The first occurrence is the one `Find` reports. */
  lemma FindFirst(s: string, pat: string, i: nat)
    requires OccursAt(s, pat, i)
    requires forall j: nat :: j < i ==> !OccursAt(s, pat, j)
    ensures Find(s, pat) == Some(i)
  {
    FindSpec(s, pat);
  }

  /** With `pat` at its first occurrence and a `$`-free replacement, `replace`
      puts the replacement exactly where the pattern was. */
  lemma ReplaceAt(a: string, pat: string, b: string, rep: string)
    requires |pat| > 0 && pat[0] !in a && '$' !in rep
    ensures ReplaceFirst(a + pat + b, pat, rep) == a + rep + b
  {
    var s := a + pat + b;
    FindAfter(a, pat, b);
    assert s[..|a|] == a && s[|a| + |pat|..] == b;
  }

  /** The replacement `$&` re-inserts the matched text, so the string is unchanged. */
  lemma ReplaceWithMatch(a: string, pat: string, b: string)
    requires |pat| > 0 && pat[0] !in a
    ensures ReplaceFirst(a + pat + b, pat, "$&") == a + pat + b
  {
    var s := a + pat + b;
    FindAfter(a, pat, b);
    assert s[..|a|] == a && s[|a| + |pat|..] == b;
    assert "$&"[2..] == [];
    assert Substitution("$&", pat, a, b) == pat + Substitution([], pat, a, b);
  }
}
