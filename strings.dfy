/**
 * The few Python `str` operations the bots rely on, over `seq<char>`:
 * `strip`, `lower`, `split`, `join`, `startswith`, `isnumeric` and `int`.
 * Only the ASCII range is modelled (see README, "Left out").
 */
module Strings {
  import opened Wrappers

  /** `str.isspace` on ASCII: space, \t \n \v \f \r and the separators 0x1C-0x1F. */
  predicate IsSpace(c: char) {
    c == ' ' || ('\t' <= c <= '\r') || ('\U{1C}' <= c <= '\U{1F}')
  }

  /** Index of the first non-space character of `s` at or after `i`; `|s|` when there is none. */
  function SkipSpaces(s: string, i: nat): (n: nat)
    requires i <= |s|
    ensures i <= n <= |s|
    ensures forall j :: i <= j < n ==> IsSpace(s[j])
    ensures n == |s| || !IsSpace(s[n])
    decreases |s| - i
  {
    if i < |s| && IsSpace(s[i]) then SkipSpaces(s, i + 1) else i
  }

  /** Index just past the last non-space character of `s` before `j`; 0 when there is none. */
  function BackSpaces(s: string, j: nat): (n: nat)
    requires j <= |s|
    ensures n <= j
    ensures forall k :: n <= k < j ==> IsSpace(s[k])
    ensures n == 0 || !IsSpace(s[n - 1])
  {
    if j > 0 && IsSpace(s[j - 1]) then BackSpaces(s, j - 1) else j
  }

  /** `s.lstrip()` */
  function TrimLeft(s: string): string {
    s[SkipSpaces(s, 0)..]
  }

  /** `s.rstrip()` */
  function TrimRight(s: string): string {
    s[..BackSpaces(s, |s|)]
  }

  /** `s.strip()`: drop whitespace at both ends. */
  function Strip(s: string): (r: string)
    ensures |r| <= |s|
    ensures r == [] || (!IsSpace(r[0]) && !IsSpace(r[|r| - 1]))
  {
    var u := TrimLeft(s);
    assert u == [] || u[0] == s[SkipSpaces(s, 0)];
    TrimRight(u)
  }

  /** A text without whitespace at its ends is its own `strip`. */
  lemma StripUnpadded(s: string)
    requires s == [] || (!IsSpace(s[0]) && !IsSpace(s[|s| - 1]))
    ensures Strip(s) == s
  {
    assert SkipSpaces(s, 0) == 0;
    assert s[0..] == s;
    assert BackSpaces(s, |s|) == |s|;
  }

  /** Skipping over a run of spaces lands where skipping from its end does. */
  lemma {:induction false} SkipOverSpaces(s: string, i: nat, j: nat)
    requires i <= j <= |s|
    requires forall k :: i <= k < j ==> IsSpace(s[k])
    ensures SkipSpaces(s, i) == SkipSpaces(s, j)
    decreases j - i
  {
    if i < j {
      SkipOverSpaces(s, i + 1, j);
    }
  }

  /** Skipping in `p + s` from inside `s` is skipping in `s`, shifted by `|p|`. */
  lemma {:induction false} SkipShift(p: string, s: string, i: nat)
    requires i <= |s|
    ensures SkipSpaces(p + s, |p| + i) == |p| + SkipSpaces(s, i)
    decreases |s| - i
  {
    if i < |s| {
      assert (p + s)[|p| + i] == s[i];
      if IsSpace(s[i]) {
        SkipShift(p, s, i + 1);
      }
    }
  }

  /** Text appended after a non-space character does not move where skipping stops. */
  lemma {:induction false} SkipAppend(s: string, q: string, i: nat)
    requires i <= |s| && SkipSpaces(s, i) < |s|
    ensures SkipSpaces(s + q, i) == SkipSpaces(s, i)
    decreases |s| - i
  {
    assert (s + q)[i] == s[i];
    if IsSpace(s[i]) {
      SkipAppend(s, q, i + 1);
    }
  }

  /** Text prepended before a non-space character does not change where skipping back stops. */
  lemma {:induction false} BackShift(p: string, s: string, j: nat)
    requires p != [] && !IsSpace(p[|p| - 1])
    requires j <= |s|
    ensures BackSpaces(p + s, |p| + j) == |p| + BackSpaces(s, j)
  {
    if j > 0 {
      assert (p + s)[|p| + j - 1] == s[j - 1];
      if IsSpace(s[j - 1]) {
        BackShift(p, s, j - 1);
      }
    } else {
      assert (p + s)[|p| - 1] == p[|p| - 1];
    }
  }

  /** Skipping back over a run of spaces lands where skipping back from its start does. */
  lemma {:induction false} BackOverSpaces(s: string, i: nat, j: nat)
    requires i <= j <= |s|
    requires forall k :: i <= k < j ==> IsSpace(s[k])
    ensures BackSpaces(s, j) == BackSpaces(s, i)
  {
    if i < j {
      BackOverSpaces(s, i, j - 1);
    }
  }

  /** Skipping back in `s + q` from inside `s` only looks at `s`. */
  lemma {:induction false} BackPrefix(s: string, q: string, j: nat)
    requires j <= |s|
    ensures BackSpaces(s + q, j) == BackSpaces(s, j)
  {
    if j > 0 {
      assert (s + q)[j - 1] == s[j - 1];
      BackPrefix(s, q, j - 1);
    }
  }

  /** Leading whitespace does not change what `lstrip` returns. */
  lemma TrimLeftSpacePrefix(p: string, s: string)
    requires forall i :: 0 <= i < |p| ==> IsSpace(p[i])
    ensures TrimLeft(p + s) == TrimLeft(s)
  {
    var t := p + s;
    assert forall k :: 0 <= k < |p| ==> t[k] == p[k];
    SkipOverSpaces(t, 0, |p|);
    SkipShift(p, s, 0);
    assert t[|p| + SkipSpaces(s, 0)..] == s[SkipSpaces(s, 0)..];
  }

  /** Leading whitespace does not change what `strip` returns. */
  lemma StripSpacePrefix(p: string, s: string)
    requires forall i :: 0 <= i < |p| ==> IsSpace(p[i])
    ensures Strip(p + s) == Strip(s)
  {
    TrimLeftSpacePrefix(p, s);
  }

  /** Trailing whitespace does not change what `rstrip` returns. */
  lemma TrimRightSpaceSuffix(u: string, q: string)
    requires forall i :: 0 <= i < |q| ==> IsSpace(q[i])
    ensures TrimRight(u + q) == TrimRight(u)
  {
    var t := u + q;
    assert forall k :: |u| <= k < |t| ==> t[k] == q[k - |u|];
    BackOverSpaces(t, |u|, |t|);
    BackPrefix(u, q, |u|);
    assert t[..BackSpaces(u, |u|)] == u[..BackSpaces(u, |u|)];
  }

  /** A text of whitespace only strips to the empty text. */
  lemma StripAllSpaces(s: string)
    requires forall i :: 0 <= i < |s| ==> IsSpace(s[i])
    ensures Strip(s) == []
  {
  }

  /** Trailing whitespace does not change what `strip` returns. */
  lemma StripSpaceSuffix(s: string, q: string)
    requires forall i :: 0 <= i < |q| ==> IsSpace(q[i])
    ensures Strip(s + q) == Strip(s)
  {
    var a := SkipSpaces(s, 0);
    if a < |s| {
      SkipAppend(s, q, 0);
      assert TrimLeft(s + q) == TrimLeft(s) + q;
      TrimRightSpaceSuffix(TrimLeft(s), q);
    } else {
      assert forall i :: 0 <= i < |s + q| ==> IsSpace((s + q)[i]);
      StripAllSpaces(s + q);
      StripAllSpaces(s);
    }
  }

  /** `lstrip` stops at the first non-space character `c`: only the text before it changes. */
  lemma TrimLeftBeforeMark(k: string, c: char, v: string)
    requires !IsSpace(c)
    ensures TrimLeft(k + [c] + v) == TrimLeft(k) + [c] + v
  {
    var t := k + [c] + v;
    var a := SkipSpaces(k, 0);
    if a < |k| {
      SkipAppend(k, [c] + v, 0);
      assert t == k + ([c] + v);
    } else {
      assert forall j :: 0 <= j < |k| ==> t[j] == k[j];
      SkipOverSpaces(t, 0, |k|);
      assert t[|k|] == c;
    }
    assert t[a..] == k[a..] + [c] + v;
  }

  /** `rstrip` stops at the last non-space character `c`: only the text after it changes. */
  lemma TrimRightAfterMark(u: string, c: char, v: string)
    requires !IsSpace(c)
    ensures TrimRight(u + [c] + v) == u + [c] + TrimRight(v)
  {
    var p := u + [c];
    assert u + [c] + v == p + v;
    BackShift(p, v, |v|);
    assert (p + v)[..|p| + BackSpaces(v, |v|)] == p + v[..BackSpaces(v, |v|)];
  }

  /** `strip` of a text around a non-space character only trims the outer ends. */
  lemma StripAroundMark(k: string, c: char, v: string)
    requires !IsSpace(c)
    ensures Strip(k + [c] + v) == TrimLeft(k) + [c] + TrimRight(v)
  {
    TrimLeftBeforeMark(k, c, v);
    TrimRightAfterMark(TrimLeft(k), c, v);
  }

  /** Stripping after `lstrip` is stripping. */
  lemma StripTrimLeft(s: string)
    ensures Strip(TrimLeft(s)) == Strip(s)
  {
    var t := TrimLeft(s);
    assert t == [] || t[0] == s[SkipSpaces(s, 0)];
    assert SkipSpaces(t, 0) == 0;
    assert t[0..] == t;
  }

  /** Stripping after `rstrip` is stripping. */
  lemma StripTrimRight(s: string)
    ensures Strip(TrimRight(s)) == Strip(s)
  {
    var b := BackSpaces(s, |s|);
    var u, q := s[..b], s[b..];
    assert s == u + q;
    assert forall i :: 0 <= i < |q| ==> q[i] == s[b + i];
    StripSpaceSuffix(u, q);
  }

  /** A non-space character survives `strip` wherever it is. */
  lemma StripKeepsMark(s: string, c: char)
    requires !IsSpace(c)
    ensures c in s <==> c in Strip(s)
  {
    var a := SkipSpaces(s, 0);
    var u := s[a..];
    var b := BackSpaces(u, |u|);
    assert Strip(s) == u[..b];
    if c in s {
      var j :| 0 <= j < |s| && s[j] == c;
      assert !(j < a);
      assert u[j - a] == c;
      assert !(b <= j - a);
      assert Strip(s)[j - a] == c;
    }
    if c in Strip(s) {
      var j :| 0 <= j < b && u[..b][j] == c;
      assert s[a + j] == c;
    }
  }

  /** Python's `str.lower` on ASCII letters. */
  function LowerChar(c: char): char {
    if 'A' <= c <= 'Z' then (c as int + 32) as char else c
  }

  function Lower(s: string): (r: string)
    ensures |r| == |s| && forall i :: 0 <= i < |s| ==> r[i] == LowerChar(s[i])
  {
    seq(|s|, i requires 0 <= i < |s| => LowerChar(s[i]))
  }

  lemma LowerIdempotent(s: string)
    ensures Lower(Lower(s)) == Lower(s)
  {
  }

  /** `s.startswith(p)` */
  predicate StartsWith(s: string, p: string) {
    |p| <= |s| && s[..|p|] == p
  }

  /** Index of the first `c` in `s` at or after `i`. */
  function FindFrom(s: string, c: char, i: nat): (r: Option<nat>)
    requires i <= |s|
    ensures r.None? ==> forall j :: i <= j < |s| ==> s[j] != c
    ensures r.Some? ==> i <= r.value < |s| && s[r.value] == c && forall j :: i <= j < r.value ==> s[j] != c
    decreases |s| - i
  {
    if i == |s| then None
    else if s[i] == c then Some(i)
    else FindFrom(s, c, i + 1)
  }

  /** Index of the first `c` in `s`, `None` when there is none (`str.find` returning -1). */
  function Find(s: string, c: char): (r: Option<nat>)
    ensures r.None? <==> c !in s
    ensures r.Some? ==> r.value < |s| && s[r.value] == c && c !in s[..r.value]
  {
    var r := FindFrom(s, c, 0);
    assert r.Some? ==> forall j :: 0 <= j < r.value ==> s[..r.value][j] == s[j];
    r
  }

  /** `s.split(c, 1)` when it yields two parts; `None` when `c` does not occur. */
  function SplitFirst(s: string, c: char): (r: Option<(string, string)>)
    ensures r.None? <==> c !in s
    ensures r.Some? ==> c !in r.value.0 && s == r.value.0 + [c] + r.value.1
  {
    match Find(s, c)
    case None => None
    case Some(i) =>
      assert s == s[..i] + [c] + s[i + 1..];
      Some((s[..i], s[i + 1..]))
  }

  lemma {:induction false} FindFromFirst(s: string, c: char, k: nat, i: nat)
    requires k <= i < |s| && s[i] == c
    requires forall j :: k <= j < i ==> s[j] != c
    ensures FindFrom(s, c, k) == Some(i)
    decreases i - k
  {
    if k < i {
      FindFromFirst(s, c, k + 1, i);
    }
  }

  lemma FindFirst(s: string, c: char, i: nat)
    requires i < |s| && s[i] == c && c !in s[..i]
    ensures Find(s, c) == Some(i)
  {
    assert forall j :: 0 <= j < i ==> s[j] == s[..i][j];
    FindFromFirst(s, c, 0, i);
  }

  /** `split(c, 1)` cuts at the first `c`. */
  lemma SplitFirstAt(u: string, c: char, w: string)
    requires c !in u
    ensures SplitFirst(u + [c] + w, c) == Some((u, w))
  {
    var s := u + [c] + w;
    assert s[..|u|] == u;
    FindFirst(s, c, |u|);
    assert s[|u| + 1..] == w;
  }

  /** `s.split(c)` with an explicit one-character separator. */
  function Split(s: string, c: char): (r: seq<string>)
    ensures |r| >= 1
    ensures forall i :: 0 <= i < |r| ==> c !in r[i]
    decreases |s|
  {
    match SplitFirst(s, c)
    case None => [s]
    case Some((head, tail)) => [head] + Split(tail, c)
  }

  /** `sep.join(parts)` */
  function Join(parts: seq<string>, sep: string): string {
    if parts == [] then ""
    else if |parts| == 1 then parts[0]
    else parts[0] + sep + Join(parts[1..], sep)
  }

  lemma JoinNonEmpty(parts: seq<string>, sep: string)
    requires parts != [] && parts[0] != ""
    ensures Join(parts, sep) != ""
  {
  }

  /** Splitting and joining on the same separator gives back the text: every piece is kept, in order. */
  lemma {:induction false} SplitJoin(s: string, c: char)
    ensures Join(Split(s, c), [c]) == s
    decreases |s|
  {
    match SplitFirst(s, c)
    case None =>
    case Some((head, tail)) =>
      SplitJoin(tail, c);
      assert Split(s, c) == [head] + Split(tail, c);
  }

  /** Joining pieces that hold no separator and splitting again gives the pieces back. */
  lemma {:induction false} JoinSplit(parts: seq<string>, c: char)
    requires |parts| >= 1 && forall i :: 0 <= i < |parts| ==> c !in parts[i]
    ensures Split(Join(parts, [c]), c) == parts
    decreases |parts|
  {
    if |parts| > 1 {
      var rest := Join(parts[1..], [c]);
      SplitFirstAt(parts[0], c, rest);
      JoinSplit(parts[1..], c);
      assert parts == [parts[0]] + parts[1..];
    }
  }

  predicate IsDigit(c: char) {
    '0' <= c <= '9'
  }

  /** `s.isnumeric()` restricted to ASCII: non-empty and all digits. */
  predicate IsNumeric(s: string) {
    s != [] && forall i :: 0 <= i < |s| ==> IsDigit(s[i])
  }

  /** Decimal value of a string of digits. */
  function DigitsValue(s: string): nat
    requires forall i :: 0 <= i < |s| ==> IsDigit(s[i])
  {
    if s == [] then 0
    else
      var last := s[|s| - 1];
      assert IsDigit(last);
      10 * DigitsValue(s[..|s| - 1]) + (last as int - '0' as int)
  }

  /** `str(n)` for a natural number. */
  function NatToString(n: nat): (r: string)
    ensures IsNumeric(r)
  {
    var d := ['0' + (n % 10) as char];
    if n < 10 then d else NatToString(n / 10) + d
  }

  /** `str(n)` */
  function IntToString(n: int): string {
    if n < 0 then "-" + NatToString(-n) else NatToString(n)
  }

  /** `str(n)` is an optional '-' followed by digits. */
  lemma IntToStringChars(n: int)
    ensures var s := IntToString(n);
            s != [] && forall i :: 0 <= i < |s| ==> s[i] == '-' || IsDigit(s[i])
  {
    if n < 0 {
      var s := IntToString(n);
      assert forall i :: 1 <= i < |s| ==> s[i] == NatToString(-n)[i - 1];
    }
  }

  /** `int(s)`: optional sign then decimal digits, surrounding whitespace ignored; `None` for ValueError. */
  function ParseInt(s: string): Option<int> {
    var t := Strip(s);
    if t != [] && (t[0] == '-' || t[0] == '+') && IsNumeric(t[1..]) then
      var v: int := DigitsValue(t[1..]);
      Some(if t[0] == '-' then -v else v)
    else if IsNumeric(t) then Some(DigitsValue(t))
    else None
  }

  lemma {:induction false} DigitsValueOfNat(n: nat)
    ensures DigitsValue(NatToString(n)) == n
  {
    var d := ['0' + (n % 10) as char];
    if n >= 10 {
      var s := NatToString(n / 10) + d;
      assert s[..|s| - 1] == NatToString(n / 10);
      DigitsValueOfNat(n / 10);
    }
  }

  /** `int(str(n)) == n` */
  lemma IntRoundTrip(n: int)
    ensures ParseInt(IntToString(n)) == Some(n)
  {
    var s := IntToString(n);
    if n < 0 {
      DigitsValueOfNat(-n);
      assert s[1..] == NatToString(-n);
    } else {
      DigitsValueOfNat(n);
    }
    StripUnpadded(s);
  }

  /** Python's `a <= b` on strings, compared from position `i` on: code points in order, a prefix first. */
  predicate LeFrom(a: string, b: string, i: nat)
    requires i <= |a| && i <= |b|
    decreases |a| - i
  {
    if i == |a| then true
    else if i == |b| then false
    else if a[i] != b[i] then a[i] < b[i]
    else LeFrom(a, b, i + 1)
  }

  /** `a <= b` on strings. */
  predicate StrLe(a: string, b: string) {
    LeFrom(a, b, 0)
  }

  lemma {:induction false} LeFromTotal(a: string, b: string, i: nat)
    requires i <= |a| && i <= |b|
    ensures LeFrom(a, b, i) || LeFrom(b, a, i)
    decreases |a| - i
  {
    if i < |a| && i < |b| && a[i] == b[i] {
      LeFromTotal(a, b, i + 1);
    }
  }

  lemma {:induction false} LeFromTrans(a: string, b: string, c: string, i: nat)
    requires i <= |a| && i <= |b| && i <= |c|
    requires LeFrom(a, b, i) && LeFrom(b, c, i)
    ensures LeFrom(a, c, i)
    decreases |a| - i
  {
    if i < |a| && i < |b| && i < |c| && a[i] == b[i] && b[i] == c[i] {
      LeFromTrans(a, b, c, i + 1);
    }
  }

  /** String comparison is total and transitive, so sorting by a string key is well defined. */
  lemma StrLeTotal(a: string, b: string)
    ensures StrLe(a, b) || StrLe(b, a)
  {
    LeFromTotal(a, b, 0);
  }

  lemma StrLeTrans(a: string, b: string, c: string)
    requires StrLe(a, b) && StrLe(b, c)
    ensures StrLe(a, c)
  {
    LeFromTrans(a, b, c, 0);
  }

  /** `s.count(c)` for one character. */
  function Count(s: string, c: char): (n: nat)
    ensures n <= |s|
  {
    if s == [] then 0
    else Count(s[..|s| - 1], c) + (if s[|s| - 1] == c then 1 else 0)
  }

  lemma {:induction false} CountAppend(s: string, t: string, c: char)
    ensures Count(s + t, c) == Count(s, c) + Count(t, c)
    decreases |t|
  {
    if t != [] {
      var t' := t[..|t| - 1];
      assert (s + t)[..|s + t| - 1] == s + t';
      CountAppend(s, t', c);
    } else {
      assert s + t == s;
    }
  }

  /** A character that does not occur is counted zero times. */
  lemma {:induction false} CountAbsent(s: string, c: char)
    requires c !in s
    ensures Count(s, c) == 0
    decreases |s|
  {
    if s != [] {
      assert c !in s[..|s| - 1];
      CountAbsent(s[..|s| - 1], c);
    }
  }
}
