/** The string operations the parsers are written with, and what they do to each other. */
module Text {

  /** Position of the first character of `stops`, or the length when there is none. */
  function FirstOf(s: string, stops: set<char>): (i: nat)
    ensures i <= |s|
    ensures i < |s| ==> s[i] in stops
    ensures forall k | 0 <= k < i :: s[k] !in stops
  {
    FirstFrom(s, stops, 0)
  }

  function FirstFrom(s: string, stops: set<char>, from: nat): (i: nat)
    requires from <= |s|
    ensures from <= i <= |s|
    ensures i < |s| ==> s[i] in stops
    ensures forall k | from <= k < i :: s[k] !in stops
    decreases |s| - from
  {
    if from == |s| || s[from] in stops then from else FirstFrom(s, stops, from + 1)
  }

  function Until(s: string, stops: set<char>): (r: string)
    ensures r <= s && |r| == FirstOf(s, stops)
    ensures forall k | 0 <= k < |r| :: r[k] !in stops
  {
    s[..FirstOf(s, stops)]
  }

  ghost predicate Avoids(s: string, chars: set<char>) {
    forall k | 0 <= k < |s| :: s[k] !in chars
  }

  lemma Assoc(a: string, b: string, c: string)
    ensures a + b + c == a + (b + c)
  {
  }

  predicate StartsWith(s: string, prefix: string) {
    prefix <= s
  }

  predicate SeparatorAt(s: string, i: nat) {
    i + 3 <= |s| && s[i] == ':' && s[i + 1] == '/' && s[i + 2] == '/'
  }

  /** Position of the first occurrence of "://", or the length when there is none. */
  function FindSeparator(s: string): (i: nat)
    ensures i <= |s|
    ensures i < |s| ==> SeparatorAt(s, i)
    ensures forall k | 0 <= k < i :: !SeparatorAt(s, k)
  {
    SeparatorFrom(s, 0)
  }

  function SeparatorFrom(s: string, from: nat): (i: nat)
    requires from <= |s|
    ensures from <= i <= |s|
    ensures i < |s| ==> SeparatorAt(s, i)
    ensures forall k | from <= k < i :: !SeparatorAt(s, k)
    decreases |s| - from
  {
    if from == |s| || SeparatorAt(s, from) then from else SeparatorFrom(s, from + 1)
  }

  function LowerChar(c: char): char {
    if 'A' <= c <= 'Z' then c + 32 as char else c
  }

  /** `str.lower`, on ASCII. */
  function Lower(s: string): (r: string)
    ensures |r| == |s|
    ensures forall k | 0 <= k < |s| :: r[k] == LowerChar(s[k])
  {
    seq(|s|, i requires 0 <= i < |s| => LowerChar(s[i]))
  }

  predicate IsSpace(c: char) {
    c == ' ' || '\t' <= c <= '\r' || 28 as char <= c <= 31 as char
  }

  function LStrip(s: string): (r: string)
    ensures |r| <= |s|
    ensures r != [] ==> !IsSpace(r[0])
    ensures s != [] && !IsSpace(s[0]) ==> r == s
    ensures (forall k | 0 <= k < |s| :: IsSpace(s[k])) ==> r == []
    ensures forall c :: c in r ==> c in s
  {
    if s == [] || !IsSpace(s[0]) then s else LStrip(s[1..])
  }

  function RStrip(s: string): (r: string)
    ensures r <= s
    ensures r != [] ==> !IsSpace(r[|r| - 1])
    ensures s != [] && !IsSpace(s[|s| - 1]) ==> r == s
    ensures forall c :: c in r ==> c in s
  {
    if s == [] || !IsSpace(s[|s| - 1]) then s else RStrip(s[..|s| - 1])
  }

  /** `str.strip`, on ASCII white space. */
  function Strip(s: string): (r: string)
    ensures Trimmed(r)
    ensures Trimmed(s) ==> r == s
    ensures forall c :: c in r ==> c in s
  {
    var l := LStrip(s);
    var r := RStrip(l);
    assert r != [] ==> r[0] == l[0];
    r
  }

  predicate Trimmed(s: string) {
    s == [] || (!IsSpace(s[0]) && !IsSpace(s[|s| - 1]))
  }

  /** `str.split(sep)` for a one-character separator. */
  function Split(s: string, sep: char): (parts: seq<string>)
    ensures |parts| >= 1
    ensures forall i | 0 <= i < |parts| :: sep !in parts[i]
    decreases |s|
  {
    var i := FirstOf(s, {sep});
    if i == |s| then [s] else [s[..i]] + Split(s[i + 1..], sep)
  }

  function Join(parts: seq<string>, sep: char): string {
    if parts == [] then ""
    else if |parts| == 1 then parts[0]
    else parts[0] + [sep] + Join(parts[1..], sep)
  }

  lemma FirstOfAt(s: string, stops: set<char>, i: nat)
    requires i <= |s|
    requires i < |s| ==> s[i] in stops
    requires forall k | 0 <= k < i :: s[k] !in stops
    ensures FirstOf(s, stops) == i
  {
  }

  lemma UntilAt(head: string, tail: string, stops: set<char>)
    requires Avoids(head, stops) && (tail != "" ==> tail[0] in stops)
    ensures Until(head + tail, stops) == head
  {
    FirstOfAt(head + tail, stops, |head|);
  }

  /** Splitting at the separator undoes joining with it. */
  lemma {:induction false} SplitJoin(parts: seq<string>, sep: char)
    requires |parts| >= 1
    requires forall i | 0 <= i < |parts| :: sep !in parts[i]
    ensures Split(Join(parts, sep), sep) == parts
  {
    var s := Join(parts, sep);
    if |parts| == 1 {
      FirstOfAt(s, {sep}, |s|);
    } else {
      FirstOfAt(s, {sep}, |parts[0]|);
      assert s[..|parts[0]|] == parts[0];
      assert s[|parts[0]| + 1..] == Join(parts[1..], sep);
      SplitJoin(parts[1..], sep);
    }
  }

  /** The non-empty parts: `[seg for seg in path.split("/") if seg]`. */
  function NonEmpty(parts: seq<string>): (r: seq<string>)
    ensures forall x :: x in r <==> x in parts && x != ""
  {
    if parts == [] then [] else (if parts[0] == "" then [] else [parts[0]]) + NonEmpty(parts[1..])
  }

  lemma SplitFirst(s: string, sep: char, i: nat)
    requires i < |s| && s[i] == sep && forall k | 0 <= k < i :: s[k] != sep
    ensures Split(s, sep) == [s[..i]] + Split(s[i + 1..], sep)
  {
    FirstOfAt(s, {sep}, i);
  }

  lemma SplitWhole(s: string, sep: char)
    requires forall k | 0 <= k < |s| :: s[k] != sep
    ensures Split(s, sep) == [s]
  {
    FirstOfAt(s, {sep}, |s|);
  }

  /** Lexicographic order by code point: the order `sorted` puts strings in. */
  predicate Below(a: string, b: string) {
    b != "" && (a == "" || a[0] < b[0] || (a[0] == b[0] && Below(a[1..], b[1..])))
  }

  lemma BelowTrans(a: string, b: string, c: string)
    requires Below(a, b) && Below(b, c)
    ensures Below(a, c)
  {
  }

  lemma BelowTotal(a: string, b: string)
    ensures a == b || Below(a, b) || Below(b, a)
  {
    if a != "" && b != "" && a[0] == b[0] {
      BelowTotal(a[1..], b[1..]);
      assert a == [a[0]] + a[1..];
      assert b == [b[0]] + b[1..];
    }
  }

  lemma BelowIrreflexive(a: string)
    ensures !Below(a, a)
  {
  }
}
