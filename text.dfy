/**
 * The string operations the pipeline applies to model replies: Python's
 * `strip`, `rstrip(chars)`, `upper`, `in`, `split("\n")`, `int(...)` and the
 * extraction of a payload from a markdown code fence.
 */
module Text {
  import opened Wrappers

  /**
   * The ASCII characters Python's `str.strip()` removes (those for which
   * `str.isspace()` holds): space, \t, \n, \x0b, \x0c, \r and the
   * separators \x1c to \x1f.
   */
  predicate IsSpace(c: char) {
    c == ' ' || ('\t' <= c <= '\r') || ('\U{1C}' <= c <= '\U{1F}')
  }

  /** The first position at or after `i` that does not hold white space (where `s.lstrip()` starts). */
  function SkipSpaces(s: string, i: nat): (j: nat)
    requires i <= |s|
    ensures i <= j <= |s|
    ensures forall k :: i <= k < j ==> IsSpace(s[k])
    ensures j == |s| || !IsSpace(s[j])
    decreases |s| - i
  {
    if i < |s| && IsSpace(s[i]) then SkipSpaces(s, i + 1) else i
  }

  /** Walking back from `j` but not past `lo`, the end of the text once trailing white space is dropped. */
  function SkipSpacesBack(s: string, lo: nat, j: nat): (k: nat)
    requires lo <= j <= |s|
    ensures lo <= k <= j
    ensures forall m :: k <= m < j ==> IsSpace(s[m])
    ensures k == lo || !IsSpace(s[k - 1])
    decreases j - lo
  {
    if lo < j && IsSpace(s[j - 1]) then SkipSpacesBack(s, lo, j - 1) else j
  }

  /** Walking back from `j`, the end of the text once trailing copies of `c` are dropped. */
  function SkipCharBack(s: string, c: char, j: nat): (k: nat)
    requires j <= |s|
    ensures k <= j
    ensures forall m :: k <= m < j ==> s[m] == c
    ensures k == 0 || s[k - 1] != c
  {
    if 0 < j && s[j - 1] == c then SkipCharBack(s, c, j - 1) else j
  }

  /** `s.rstrip(c)` for a single character `c`. */
  function TrimEndChar(s: string, c: char): (r: string)
    ensures r <= s
    ensures forall i :: |r| <= i < |s| ==> s[i] == c
    ensures r == [] || r[|r| - 1] != c
  {
    s[..SkipCharBack(s, c, |s|)]
  }

  /** `r` occurs in `s` at position `i`. */
  ghost predicate InfixAt(r: string, s: string, i: int) {
    0 <= i <= |s| - |r| && s[i..i + |r|] == r
  }

  ghost predicate IsInfix(r: string, s: string) {
    exists i :: InfixAt(r, s, i)
  }

  /** `r` is `s[a..b]` and everything outside `a..b` is white space. */
  ghost predicate TrimmedAt(r: string, s: string, a: int, b: int) {
    && 0 <= a <= b <= |s| && r == s[a..b]
    && (forall k :: 0 <= k < a ==> IsSpace(s[k]))
    && (forall k :: b <= k < |s| ==> IsSpace(s[k]))
  }

  /** `s.strip()`: only white space is dropped, and only from the two ends, until neither end is white space. */
  function Strip(s: string): (r: string)
    ensures r == [] || (!IsSpace(r[0]) && !IsSpace(r[|r| - 1]))
    ensures IsInfix(r, s)
    ensures exists a, b :: TrimmedAt(r, s, a, b)
  {
    var a := SkipSpaces(s, 0);
    var b := SkipSpacesBack(s, a, |s|);
    assert InfixAt(s[a..b], s, a);
    assert TrimmedAt(s[a..b], s, a, b);
    s[a..b]
  }

  /** Stripping twice is stripping once. */
  lemma {:induction false} StripIdempotent(s: string)
    ensures Strip(Strip(s)) == Strip(s)
  {
    var r := Strip(s);
    assert SkipSpaces(r, 0) == 0;
    assert SkipSpacesBack(r, 0, |r|) == |r|;
    assert r[0..|r|] == r;
  }

  /** ASCII `c.upper()`. */
  function UpperChar(c: char): char {
    if 'a' <= c <= 'z' then (c as int - 32) as char else c
  }

  /** `s.upper()` on ASCII letters. */
  function Upper(s: string): (r: string)
    ensures |r| == |s|
    ensures forall i :: 0 <= i < |s| ==> r[i] == UpperChar(s[i])
  {
    seq(|s|, i requires 0 <= i < |s| => UpperChar(s[i]))
  }

  /** `pat` occurs in `s` at position `i`. */
  predicate OccursAt(s: string, pat: string, i: nat) {
    i + |pat| <= |s| && s[i..i + |pat|] == pat
  }

  /** The first position at or after `from` where `pat` occurs (`s.find(pat, from)`). */
  function IndexFrom(s: string, pat: string, from: nat): (r: Option<nat>)
    ensures r.Some? ==> from <= r.value && OccursAt(s, pat, r.value)
    ensures r.Some? ==> forall j :: from <= j < r.value ==> !OccursAt(s, pat, j)
    ensures r.None? ==> forall j :: from <= j ==> !OccursAt(s, pat, j)
    decreases |s| - from
  {
    if from + |pat| > |s| then None
    else if OccursAt(s, pat, from) then Some(from)
    else IndexFrom(s, pat, from + 1)
  }

  /** `pat in s` */
  predicate Contains(s: string, pat: string) {
    IndexFrom(s, pat, 0).Some?
  }

  /** `s.split(pat)[0]`: the text before the first occurrence of `pat`, or all of `s`. */
  function Before(s: string, pat: string): (r: string)
    ensures r <= s
    ensures pat != [] ==> !Contains(r, pat)
  {
    match IndexFrom(s, pat, 0)
    case None => s
    case Some(i) =>
      if pat != [] then PrefixBeforeFirst(s, pat, i); s[..i] else s[..i]
  }

  lemma {:induction false} PrefixBeforeFirst(s: string, pat: string, i: nat)
    requires i <= |s| && pat != []
    requires forall j :: 0 <= j < i ==> !OccursAt(s, pat, j)
    ensures !Contains(s[..i], pat)
  {
    if Contains(s[..i], pat) {
      var k := IndexFrom(s[..i], pat, 0).value;
      assert s[..i][k..k + |pat|] == s[k..k + |pat|];
      assert OccursAt(s, pat, k);
    }
  }

  /** The text after the first occurrence of `pat`, which must occur. */
  function After(s: string, pat: string): (r: string)
    requires Contains(s, pat)
    ensures |r| <= |s| && r == s[|s| - |r|..]
  {
    var i := IndexFrom(s, pat, 0).value;
    s[i + |pat|..]
  }

  /** A substring of a text without `pat` has no `pat` either. */
  lemma {:induction false} NoOccurrenceInSubstring(s: string, pat: string, i: nat, j: nat)
    requires i <= j <= |s| && !Contains(s, pat)
    ensures !Contains(s[i..j], pat)
  {
    var t := s[i..j];
    if Contains(t, pat) {
      var k := IndexFrom(t, pat, 0).value;
      assert OccursAt(t, pat, k);
      var n := |pat|;
      assert k + n <= |t|;
      forall m | 0 <= m < n
        ensures s[i + k..i + k + n][m] == pat[m]
      {
        assert t[k..k + n][m] == t[k + m] == s[i + k + m];
      }
      assert s[i + k..i + k + n] == pat;
      assert OccursAt(s, pat, i + k);
    }
  }

  lemma {:induction false} StripKeepsAbsent(s: string, pat: string)
    requires !Contains(s, pat)
    ensures !Contains(Strip(s), pat)
  {
    var r := Strip(s);
    var i :| InfixAt(r, s, i);
    assert r == s[i..i + |r|];
    NoOccurrenceInSubstring(s, pat, i, i + |r|);
  }

  /**
   * The JSON payload of a model reply: the text after the first "```json",
   * cut at the next "```json" and then at the first fence; else the text
   * between the first two fences; else the whole stripped reply (the fenced
   * part is stripped too).
   */
  function FencedPayload(reply: string): (r: string)
    ensures Contains(Strip(reply), "```") ==> !Contains(r, "```")
    ensures !Contains(Strip(reply), "```") ==> r == Strip(reply)
  {
    var text := Strip(reply);
    if Contains(text, "```json") then
      JsonFenceIsFence(text);
      FencedStripped(Before(After(text, "```json"), "```json"))
    else if Contains(text, "```") then
      FencedStripped(After(text, "```"))
    else text
  }

  lemma {:induction false} JsonFenceIsFence(s: string)
    requires Contains(s, "```json")
    ensures Contains(s, "```")
  {
    var i := IndexFrom(s, "```json", 0).value;
    assert s[i..i + 3] == s[i..i + 7][..3];
    assert OccursAt(s, "```", i);
  }

  /** Text before the next fence, stripped. */
  function FencedStripped(rest: string): (r: string)
    ensures !Contains(r, "```")
  {
    var seg := Before(rest, "```");
    StripKeepsAbsent(seg, "```");
    Strip(seg)
  }

  /** `pat` occurs at `i` and nowhere before it. */
  ghost predicate FirstAt(s: string, pat: string, i: nat) {
    OccursAt(s, pat, i) && forall k :: 0 <= k < i ==> !OccursAt(s, pat, k)
  }

  /** `pat` occurs in `s` nowhere in `from..to`. */
  ghost predicate AbsentIn(s: string, pat: string, from: nat, to: nat) {
    forall k :: from <= k < to ==> !OccursAt(s, pat, k)
  }

  /** The search from `from` stops at the first occurrence at or after `from`. */
  lemma {:induction false} IndexFromFinds(s: string, pat: string, from: nat, i: nat)
    requires from <= i && OccursAt(s, pat, i) && AbsentIn(s, pat, from, i)
    ensures IndexFrom(s, pat, from) == Some(i)
    decreases i - from
  {
    if from < i {
      IndexFromFinds(s, pat, from + 1, i);
    }
  }

  /** An occurrence in a suffix is an occurrence in the whole text, shifted. */
  lemma {:induction false} OccursAtShift(s: string, pat: string, d: nat, k: nat)
    requires d <= |s|
    ensures OccursAt(s[d..], pat, k) <==> OccursAt(s, pat, d + k)
  {
    if d + k + |pat| <= |s| {
      assert s[d..][k..k + |pat|] == s[d + k..d + k + |pat|];
    }
  }

  /** `After` is the text after the first occurrence. */
  lemma {:induction false} AfterFirst(s: string, pat: string, i: nat)
    requires FirstAt(s, pat, i)
    ensures Contains(s, pat) && After(s, pat) == s[i + |pat|..]
  {
    IndexFromFinds(s, pat, 0, i);
  }

  /** `Before` is the text up to the first occurrence, or all of it when there is none. */
  lemma {:induction false} BeforeFirst(s: string, pat: string, j: nat)
    requires pat != [] && j <= |s| && (j == |s| || OccursAt(s, pat, j)) && AbsentIn(s, pat, 0, j)
    ensures Before(s, pat) == s[..j]
  {
    if OccursAt(s, pat, j) {
      IndexFromFinds(s, pat, 0, j);
    } else {
      assert j == |s|;
      assert IndexFrom(s, pat, 0).None?;
    }
  }

  /** In the text from `d` on, the part before the first `pat` is the text up to the next `pat` at `j`, or to the end. */
  lemma {:induction false} BeforeFrom(t: string, pat: string, d: nat, j: nat)
    requires pat != [] && d <= j <= |t| && (j == |t| || OccursAt(t, pat, j)) && AbsentIn(t, pat, d, j)
    ensures Before(t[d..], pat) == t[d..j]
  {
    var rest := t[d..];
    forall k | 0 <= k < j - d
      ensures !OccursAt(rest, pat, k)
    {
      OccursAtShift(t, pat, d, k);
    }
    if j < |t| {
      OccursAtShift(t, pat, d, j - d);
    }
    BeforeFirst(rest, pat, j - d);
    assert rest[..j - d] == t[d..j];
  }

  /**
   * A reply whose stripped text has its first "```json" at `i` and the next
   * one at `m` (or none, `m` at the end) yields the stripped text from there
   * up to the first fence at `j` of that piece, or to the end of the piece.
   */
  lemma {:induction false} FencedPayloadJson(reply: string, i: nat, m: nat, j: nat)
    requires FirstAt(Strip(reply), "```json", i) && i + 7 <= m <= |Strip(reply)|
    requires m == |Strip(reply)| || OccursAt(Strip(reply), "```json", m)
    requires AbsentIn(Strip(reply), "```json", i + 7, m)
    requires j <= m - (i + 7) && (j == m - (i + 7) || OccursAt(Strip(reply)[i + 7..m], "```", j))
    requires AbsentIn(Strip(reply)[i + 7..m], "```", 0, j)
    ensures FencedPayload(reply) == Strip(Strip(reply)[i + 7..m][..j])
  {
    var t := Strip(reply);
    AfterFirst(t, "```json", i);
    BeforeFrom(t, "```json", i + 7, m);
    BeforeFirst(t[i + 7..m], "```", j);
  }

  /**
   * A reply whose stripped text has no "```json" and its first fence at `i`
   * yields the stripped text from there up to the next fence at `j`, or to the end.
   */
  lemma {:induction false} FencedPayloadBare(reply: string, i: nat, j: nat)
    requires !Contains(Strip(reply), "```json")
    requires FirstAt(Strip(reply), "```", i) && i + 3 <= j <= |Strip(reply)|
    requires j == |Strip(reply)| || OccursAt(Strip(reply), "```", j)
    requires AbsentIn(Strip(reply), "```", i + 3, j)
    ensures FencedPayload(reply) == Strip(Strip(reply)[i + 3..j])
  {
    AfterFirst(Strip(reply), "```", i);
    BeforeFrom(Strip(reply), "```", i + 3, j);
  }

  /** A stripped payload with no fence in it, wrapped in a "```json" block on lines of its own, is recovered intact. */
  lemma {:induction false} FencedPayloadRoundTrip(p: string)
    requires Strip(p) == p && !Contains(p, "```")
    ensures FencedPayload("```json\n" + p + "\n```") == p
  {
    var reply := "```json\n" + p + "\n```";
    StripUnpadded(reply);
    assert OccursAt(reply, "```json", 0) by {
      assert reply[0..7] == "```json";
    }
    JsonFenceIsFence(reply);
    var rest := After(reply, "```json");
    assert rest == "\n" + p + "\n```" by {
      assert IndexFrom(reply, "```json", 0) == Some(0);
    }
    NoSecondJsonFence(p, rest);
    FirstFenceAfterPayload(p, rest);
    var seg := Before(rest, "```");
    assert seg == "\n" + p + "\n" by {
      assert rest[..|p| + 2] == "\n" + p + "\n";
    }
    StripPadded(p, seg);
  }

  lemma {:induction false} SkipSpacesTo(s: string, i: nat, a: nat)
    requires i <= a < |s| && !IsSpace(s[a]) && forall k :: i <= k < a ==> IsSpace(s[k])
    ensures SkipSpaces(s, i) == a
    decreases a - i
  {
    if i < a {
      SkipSpacesTo(s, i + 1, a);
    }
  }

  lemma {:induction false} SkipSpacesBackTo(s: string, lo: nat, b: nat, j: nat)
    requires lo < b <= j <= |s| && !IsSpace(s[b - 1]) && forall k :: b <= k < j ==> IsSpace(s[k])
    ensures SkipSpacesBack(s, lo, j) == b
    decreases j - b
  {
    if b < j {
      SkipSpacesBackTo(s, lo, b, j - 1);
    }
  }

  /** Stripping keeps exactly the text between white-space padding, when that text has non-space ends. */
  lemma {:induction false} StripIs(s: string, a: nat, b: nat)
    requires a < b <= |s| && !IsSpace(s[a]) && !IsSpace(s[b - 1])
    requires forall k :: 0 <= k < a ==> IsSpace(s[k])
    requires forall k :: b <= k < |s| ==> IsSpace(s[k])
    ensures Strip(s) == s[a..b]
  {
    SkipSpacesTo(s, 0, a);
    SkipSpacesBackTo(s, a, b, |s|);
  }

  /** Text that neither starts nor ends with white space is its own strip. */
  lemma {:induction false} StripUnpadded(s: string)
    requires s != [] && !IsSpace(s[0]) && !IsSpace(s[|s| - 1])
    ensures Strip(s) == s
  {
    assert SkipSpaces(s, 0) == 0;
    assert SkipSpacesBack(s, 0, |s|) == |s|;
    assert s[0..|s|] == s;
  }

  /** A stripped text between two newlines strips back to itself. */
  lemma {:induction false} StripPadded(p: string, seg: string)
    requires Strip(p) == p && seg == "\n" + p + "\n"
    ensures Strip(seg) == p
  {
    if p == [] {
      assert SkipSpaces(seg, 0) == 2;
      assert seg[2..2] == p;
    } else {
      assert !IsSpace(p[0]) && !IsSpace(p[|p| - 1]);
      assert seg[1] == p[0] && seg[|p|] == p[|p| - 1];
      assert SkipSpaces(seg, 0) == 1;
      assert SkipSpacesBack(seg, 1, |seg|) == |p| + 1;
      assert seg[1..|p| + 1] == p;
    }
  }

  /** The first fence in a newline, a fence-free payload, a newline and a fence is that last fence. */
  lemma {:induction false} FirstFenceAfterPayload(p: string, rest: string)
    requires !Contains(p, "```") && rest == "\n" + p + "\n```"
    ensures IndexFrom(rest, "```", 0) == Some(|p| + 2)
  {
    assert OccursAt(rest, "```", |p| + 2) by {
      assert rest[|p| + 2..|p| + 5] == "```";
    }
    forall j | 0 <= j < |p| + 2
      ensures !OccursAt(rest, "```", j)
    {
      NoFenceBefore(p, rest, j);
    }
  }

  /** The text after the opening "```json" holds no second one: the closing fence is too close to the end. */
  lemma {:induction false} NoSecondJsonFence(p: string, rest: string)
    requires !Contains(p, "```") && rest == "\n" + p + "\n```"
    ensures Before(rest, "```json") == rest
  {
    forall k | 0 <= k < |rest|
      ensures !OccursAt(rest, "```json", k)
    {
      if k + 7 <= |rest| {
        NoFenceBefore(p, rest, k);
        assert rest[k..k + 3] == rest[k..k + 7][..3];
      }
    }
    BeforeFirst(rest, "```json", |rest|);
    assert rest[..|rest|] == rest;
  }

  /**
   * Only the text up to the next "```json" is searched for the closing fence:
   * in "```json\n{}\n````json" the payload is "{}\n`", not "{}".
   */
  lemma {:induction false} FencedPayloadStopsAtJsonFence(reply: string)
    requires reply == "```json\n{}\n````json"
    ensures FencedPayload(reply) == "{}\n`"
  {
    StripUnpadded(reply);
    TwoJsonFences(reply);
    var u := reply[7..12];
    PieceWithoutFence(u);
    FencedPayloadJson(reply, 0, 12, 5);
    assert u[..5] == u;
    StripIs(u, 1, 5);
    assert u[1..5] == "{}\n`";
  }

  lemma {:induction false} TwoJsonFences(reply: string)
    requires reply == "```json\n{}\n````json"
    ensures FirstAt(reply, "```json", 0) && OccursAt(reply, "```json", 12)
    ensures AbsentIn(reply, "```json", 7, 12)
  {
    assert reply[0..7] == "```json";
    assert reply[12..19] == "```json";
    forall k | 7 <= k < 12
      ensures !OccursAt(reply, "```json", k)
    {
      assert reply[k..k + 7][0] == reply[k] && reply[k..k + 7][3] == reply[k + 3];
    }
  }

  lemma {:induction false} PieceWithoutFence(u: string)
    requires u == "\n{}\n`"
    ensures AbsentIn(u, "```", 0, 5) && !IsSpace(u[1]) && !IsSpace(u[4]) && IsSpace(u[0])
  {
    forall k | 0 <= k < 5
      ensures !OccursAt(u, "```", k)
    {
      if k + 3 <= 5 {
        assert u[k..k + 3][0] == u[k];
      }
    }
  }

  /** No fence starts before the closing one: not on a newline, and not inside the fence-free payload. */
  lemma {:induction false} NoFenceBefore(p: string, rest: string, j: nat)
    requires !Contains(p, "```") && rest == "\n" + p + "\n```" && j < |p| + 2
    ensures !OccursAt(rest, "```", j)
  {
    if j == 0 {
      assert rest[0] == '\n';
    } else if j + 3 <= |p| + 1 {
      assert !OccursAt(p, "```", j - 1);
      assert rest[j..j + 3] == p[j - 1..j + 2];
    } else {
      assert rest[|p| + 1] == '\n';
      assert rest[j..j + 3][|p| + 1 - j] == rest[|p| + 1];
    }
  }

  /** `s.split(sep)` for a one-character separator. */
  function Split(s: string, sep: char): (r: seq<string>)
    ensures |r| >= 1
    ensures forall p :: p in r ==> sep !in p
  {
    if s == [] then [""]
    else
      var rest := Split(s[1..], sep);
      if s[0] == sep then [""] + rest
      else [[s[0]] + rest[0]] + rest[1..]
  }

  /** `sep.join(parts)` */
  function Join(parts: seq<string>, sep: char): string
    requires |parts| >= 1
  {
    if |parts| == 1 then parts[0] else parts[0] + [sep] + Join(parts[1..], sep)
  }

  /** Splitting loses nothing: joining the pieces back gives the text. */
  lemma {:induction false} JoinSplit(s: string, sep: char)
    ensures Join(Split(s, sep), sep) == s
  {
    if s != [] {
      var rest := Split(s[1..], sep);
      JoinSplit(s[1..], sep);
      if s[0] == sep {
        assert ([""] + rest)[1..] == rest;
      } else {
        var r := [[s[0]] + rest[0]] + rest[1..];
        if |rest| == 1 {
          assert r == [[s[0]] + rest[0]];
        } else {
          assert r[1..] == rest[1..];
          assert Join(rest, sep) == rest[0] + [sep] + Join(rest[1..], sep);
        }
      }
    }
  }

  predicate IsDigit(c: char) { '0' <= c <= '9' }

  function DigitValue(c: char): nat requires IsDigit(c) { c as int - '0' as int }

  /** The value of a non-empty string of decimal digits. */
  function DigitsValue(s: string): nat
    requires forall i :: 0 <= i < |s| ==> IsDigit(s[i])
  {
    if s == [] then 0 else DigitsValue(s[..|s| - 1]) * 10 + DigitValue(s[|s| - 1])
  }

  /** `int(s)` for an optional sign followed by ASCII digits; anything else is a `ValueError` (`None`). */
  function ParseInt(s: string): (r: Option<int>)
    ensures r.Some? ==> s != [] && (IsDigit(s[0]) || s[0] == '-' || s[0] == '+')
    ensures r.Some? ==> forall i :: 1 <= i < |s| ==> IsDigit(s[i])
    ensures r.Some? ==> (r.value < 0 ==> s[0] == '-')
  {
    if s != [] && (s[0] == '-' || s[0] == '+') then
      match ParseNat(s[1..])
      case None => None
      case Some(n) => var v: int := if s[0] == '-' then -(n as int) else n; Some(v)
    else
      match ParseNat(s)
      case None => None
      case Some(n) => Some(n)
  }

  function ParseNat(s: string): Option<nat> {
    if s != [] && forall i :: 0 <= i < |s| ==> IsDigit(s[i]) then Some(DigitsValue(s)) else None
  }

  /** `str(n)` for a natural number. */
  function ShowNat(n: nat): (r: string)
    ensures r != [] && forall i :: 0 <= i < |r| ==> IsDigit(r[i])
  {
    var d := ['0' + (n % 10) as char];
    if n < 10 then d else ShowNat(n / 10) + d
  }

  /** `str(n)` */
  function ShowInt(n: int): string {
    if n < 0 then "-" + ShowNat(-n) else ShowNat(n)
  }

  /** `int(str(n)) == n` */
  lemma {:induction false} ParseShowNat(n: nat)
    ensures DigitsValue(ShowNat(n)) == n
  {
    var s := ShowNat(n);
    if n >= 10 {
      ParseShowNat(n / 10);
      assert s[..|s| - 1] == ShowNat(n / 10);
    }
  }

  lemma {:induction false} ParseShowInt(n: int)
    ensures ParseInt(ShowInt(n)) == Some(n)
  {
    if n < 0 {
      ParseShowNat(-n);
      assert ShowInt(n)[1..] == ShowNat(-n);
    } else {
      ParseShowNat(n);
    }
  }
}
