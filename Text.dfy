/**
 * The Python string primitives the chat service relies on, with explicit
 * definitions: `str.strip()` (ASCII whitespace), `str.lower()` (ASCII letters),
 * `sub in s`, `str.split(sep)` and `sep.join(parts)`. The search for the leftmost
 * occurrence of a separator exists only as the inner step of `split`.
 */
module Text {
  import opened Wrappers

  /** `c.isspace()` for the ASCII range: tab, line feed, vertical tab, form feed,
      carriage return, the four separators 0x1c-0x1f, and space. */
  predicate IsSpace(c: char) {
    c == ' ' || (9 <= c as int <= 13) || (28 <= c as int <= 31)
  }

  predicate AllSpace(s: string) {
    forall i :: 0 <= i < |s| ==> IsSpace(s[i])
  }

  /** `s.lstrip()`: drops the leading whitespace. */
  function TrimStart(s: string): string
    decreases |s|
  {
    if s != [] && IsSpace(s[0]) then TrimStart(s[1..]) else s
  }

  /** `s.rstrip()`: drops the trailing whitespace. */
  function TrimEnd(s: string): string
    decreases |s|
  {
    if s != [] && IsSpace(s[|s| - 1]) then TrimEnd(s[..|s| - 1]) else s
  }

  /** `TrimStart` removes exactly the whitespace before the first other character. */
  lemma {:induction false} TrimStartSpec(s: string)
    ensures var r := TrimStart(s);
      |r| <= |s| && r == s[|s| - |r|..] && AllSpace(s[..|s| - |r|]) &&
      (r == [] || !IsSpace(r[0]))
    decreases |s|
  {
    if s != [] && IsSpace(s[0]) {
      TrimStartSpec(s[1..]);
      var r := TrimStart(s);
      assert s[1..][|s| - 1 - |r|..] == s[|s| - |r|..];
      forall i | 0 <= i < |s| - |r|
        ensures IsSpace(s[i])
      {
        if i > 0 {
          assert s[i] == s[1..][..|s| - 1 - |r|][i - 1];
        }
      }
    }
  }

  /** `TrimEnd` removes exactly the whitespace after the last other character. */
  lemma {:induction false} TrimEndSpec(s: string)
    ensures var r := TrimEnd(s);
      |r| <= |s| && r == s[..|r|] && AllSpace(s[|r|..]) &&
      (r == [] || !IsSpace(r[|r| - 1]))
    decreases |s|
  {
    if s != [] && IsSpace(s[|s| - 1]) {
      var init := s[..|s| - 1];
      TrimEndSpec(init);
      var r := TrimEnd(s);
      assert init[..|r|] == s[..|r|];
      forall i | |r| <= i < |s|
        ensures IsSpace(s[i])
      {
        if i < |s| - 1 {
          assert s[i] == init[|r|..][i - |r|];
        }
      }
    }
  }

  /** `s.strip()`. */
  function Strip(s: string): string {
    TrimEnd(TrimStart(s))
  }

  /** Where `Strip(s)` starts inside `s`: after the leading whitespace. */
  function StripOffset(s: string): int {
    |s| - |TrimStart(s)|
  }

  /** `r` is `s` with the `k` characters before it and everything after it being whitespace. */
  predicate StrippedAt(s: string, r: string, k: int) {
    0 <= k && k + |r| <= |s| && s[k..k + |r|] == r &&
    AllSpace(s[..k]) && AllSpace(s[k + |r|..])
  }

  /** `s.strip()` is the infix of `s` left once the whitespace at both ends is removed:
      empty exactly when `s` is all whitespace, and otherwise starting and ending with
      a character that is not whitespace. */
  lemma StripSpec(s: string)
    ensures StrippedAt(s, Strip(s), StripOffset(s))
    ensures Strip(s) == [] <==> AllSpace(s)
    ensures Strip(s) != [] ==> !IsSpace(Strip(s)[0]) && !IsSpace(Strip(s)[|Strip(s)| - 1])
  {
    var t := TrimStart(s);
    TrimStartSpec(s);
    TrimEndSpec(t);
    var r := Strip(s);
    var k := |s| - |t|;
    assert s[k..][..|r|] == r;
    assert s[k..k + |r|] == r;
    assert s[k + |r|..] == t[|r|..];
    if r == [] {
      forall i | 0 <= i < |s|
        ensures IsSpace(s[i])
      {
        assert s[i] == s[..k][i];
      }
    } else {
      assert s[k] == r[0];
    }
  }

  /** Text that neither starts nor ends with whitespace is its own `strip()`. */
  lemma StripKeeps(s: string)
    requires s == [] || (!IsSpace(s[0]) && !IsSpace(s[|s| - 1]))
    ensures Strip(s) == s
  {
  }

  predicate IsUpper(c: char) {
    'A' <= c <= 'Z'
  }

  function LowerChar(c: char): char {
    if IsUpper(c) then (c as int + 32) as char else c
  }

  /** `s.lower()` for ASCII letters; every other character is kept. */
  function Lower(s: string): string {
    if s == [] then [] else [LowerChar(s[0])] + Lower(s[1..])
  }

  /** `Lower` maps each character on its own and leaves no upper-case letter. */
  lemma {:induction false} LowerSpec(s: string)
    ensures |Lower(s)| == |s|
    ensures forall i :: 0 <= i < |s| ==> Lower(s)[i] == LowerChar(s[i])
    ensures forall i :: 0 <= i < |s| ==> !IsUpper(Lower(s)[i])
  {
    if s != [] {
      LowerSpec(s[1..]);
    }
  }

  /** `sub` occurs in `s` starting at index `i`. */
  predicate OccursAt(s: string, sub: string, i: int) {
    0 <= i && i + |sub| <= |s| && s[i..i + |sub|] == sub
  }

  /** Python's `sub in s`. */
  predicate Contains(s: string, sub: string) {
    exists i | 0 <= i <= |s| :: OccursAt(s, sub, i)
  }

  /** The leftmost occurrence of `sub` in `s` at or after `from`, if any. */
  function IndexFrom(s: string, sub: string, from: nat): (r: Option<nat>)
    requires from <= |s|
    ensures r.Some? ==> from <= r.value && OccursAt(s, sub, r.value)
    decreases |s| - from
  {
    if OccursAt(s, sub, from) then Some(from)
    else if from == |s| then None
    else IndexFrom(s, sub, from + 1)
  }

  /** The search from `from` finds the leftmost occurrence at or after `from`, and none
      when there is no such occurrence. */
  lemma {:induction false} IndexFromSpec(s: string, sub: string, from: nat)
    requires from <= |s|
    ensures IndexFrom(s, sub, from).Some? ==>
      forall j :: from <= j < IndexFrom(s, sub, from).value ==> !OccursAt(s, sub, j)
    ensures IndexFrom(s, sub, from).None? ==> forall j :: from <= j ==> !OccursAt(s, sub, j)
    decreases |s| - from
  {
    if !OccursAt(s, sub, from) && from < |s| {
      IndexFromSpec(s, sub, from + 1);
    }
  }

  /** The leftmost occurrence of `sub` in `s`, if any: the search `split` makes. */
  function IndexOf(s: string, sub: string): (r: Option<nat>)
    ensures r.Some? ==> OccursAt(s, sub, r.value)
  {
    IndexFrom(s, sub, 0)
  }

  /** The search fails exactly when `sub not in s`, and otherwise finds the leftmost
      occurrence. */
  lemma IndexOfSpec(s: string, sub: string)
    ensures IndexOf(s, sub).None? <==> !Contains(s, sub)
    ensures forall j :: 0 <= j && OccursAt(s, sub, j) ==> IndexOf(s, sub).Some? && IndexOf(s, sub).value <= j
  {
    IndexFromSpec(s, sub, 0);
  }

  /** `s.split(sep)` for a non-empty separator: cut at the leftmost occurrence, repeatedly. */
  function Split(s: string, sep: string): (r: seq<string>)
    requires sep != []
    ensures |r| >= 1
    decreases |s|
  {
    match IndexOf(s, sep)
    case None => [s]
    case Some(i) => [s[..i]] + Split(s[i + |sep|..], sep)
  }

  /** The text before the leftmost occurrence does not contain the separator. */
  lemma PrefixBeforeFirst(s: string, sep: string, i: nat)
    requires sep != []
    requires IndexOf(s, sep) == Some(i)
    ensures !Contains(s[..i], sep)
  {
    IndexOfSpec(s, sep);
    forall p | 0 <= p <= i && OccursAt(s[..i], sep, p)
      ensures false
    {
      assert s[..i][p..p + |sep|] == s[p..p + |sep|];
      assert OccursAt(s, sep, p);
    }
  }

  /** No part of `s.split(sep)` contains the separator, and text without it is one part. */
  lemma {:induction false} SplitSpec(s: string, sep: string)
    requires sep != []
    ensures forall i :: 0 <= i < |Split(s, sep)| ==> !Contains(Split(s, sep)[i], sep)
    ensures !Contains(s, sep) ==> Split(s, sep) == [s]
    decreases |s|
  {
    IndexOfSpec(s, sep);
    match IndexOf(s, sep)
    case None =>
    case Some(i) =>
      PrefixBeforeFirst(s, sep, i);
      SplitSpec(s[i + |sep|..], sep);
  }

  /** `sep.join(parts)`. */
  function Join(sep: string, parts: seq<string>): string {
    if parts == [] then ""
    else if |parts| == 1 then parts[0]
    else parts[0] + sep + Join(sep, parts[1..])
  }

  /** Joining a first part in front of a non-empty rest puts one separator between them. */
  lemma JoinCons(sep: string, first: string, rest: seq<string>)
    requires rest != []
    ensures Join(sep, [first] + rest) == first + sep + Join(sep, rest)
  {
    assert ([first] + rest)[1..] == rest;
  }

  /** Text around an occurrence of `sep` is what precedes it, `sep`, and what follows it. */
  lemma Reassemble(s: string, sep: string, i: nat)
    requires OccursAt(s, sep, i)
    ensures s == s[..i] + sep + s[i + |sep|..]
  {
    assert s == s[..i] + s[i..i + |sep|] + s[i + |sep|..];
  }

  /** Splitting and joining back with the same separator gives the original text. */
  lemma {:induction false} JoinSplit(s: string, sep: string)
    requires sep != []
    ensures Join(sep, Split(s, sep)) == s
    decreases |s|
  {
    if IndexOf(s, sep).Some? {
      var i := IndexOf(s, sep).value;
      var rest := s[i + |sep|..];
      JoinSplit(rest, sep);
      JoinCons(sep, s[..i], Split(rest, sep));
      Reassemble(s, sep, i);
    }
  }

  /** For a one-character separator that no part contains, splitting the joined text
      gives the parts back. */
  lemma {:induction false} SplitJoin(parts: seq<string>, sep: string)
    requires |sep| == 1
    requires parts != []
    requires forall i :: 0 <= i < |parts| ==> !Contains(parts[i], sep)
    ensures Split(Join(sep, parts), sep) == parts
  {
    if |parts| == 1 {
      IndexOfSpec(parts[0], sep);
    } else {
      var p := parts[0];
      var tail := Join(sep, parts[1..]);
      var s := p + sep + tail;
      assert OccursAt(s, sep, |p|) by {
        assert s[|p|..|p| + 1] == sep;
      }
      IndexOfSpec(s, sep);
      forall j | 0 <= j < |p|
        ensures !OccursAt(s, sep, j)
      {
        if OccursAt(s, sep, j) {
          assert s[j..j + 1] == p[j..j + 1];
          assert OccursAt(p, sep, j);
        }
      }
      assert IndexOf(s, sep) == Some(|p|);
      assert s[..|p|] == p;
      assert s[|p| + 1..] == tail;
      SplitJoin(parts[1..], sep);
    }
  }

  /** The first part of `s.split(sep)` is the text before the leftmost separator, and the
      remaining parts joined back are the text after it (empty when there is none). */
  lemma RestAfterFirst(s: string, sep: string)
    requires sep != []
    ensures IndexOf(s, sep).None? ==> Split(s, sep)[0] == s && Join(sep, Split(s, sep)[1..]) == ""
    ensures IndexOf(s, sep).Some? ==>
      var i := IndexOf(s, sep).value;
      Split(s, sep)[0] == s[..i] && Join(sep, Split(s, sep)[1..]) == s[i + |sep|..]
  {
    match IndexOf(s, sep)
    case None =>
    case Some(i) =>
      var rest := s[i + |sep|..];
      assert Split(s, sep)[1..] == Split(rest, sep);
      JoinSplit(rest, sep);
  }

  /** An occurrence of `t` in `s` carries every occurrence inside `t` with it. */
  lemma ContainsTransitive(s: string, t: string, u: string)
    requires Contains(s, t) && Contains(t, u)
    ensures Contains(s, u)
  {
    var i :| 0 <= i <= |s| && OccursAt(s, t, i);
    var j :| 0 <= j <= |t| && OccursAt(t, u, j);
    forall k | 0 <= k < |u|
      ensures s[i + j + k] == u[k]
    {
      assert s[i + j + k] == s[i..i + |t|][j + k] == t[j + k];
      assert t[j + k] == t[j..j + |u|][k];
    }
    assert OccursAt(s, u, i + j);
  }

  /** The middle of a concatenation occurs in it. */
  lemma ContainsInfix(a: string, b: string, c: string)
    ensures Contains(a + b + c, b)
  {
    assert (a + b + c)[|a|..|a| + |b|] == b;
    assert OccursAt(a + b + c, b, |a|);
  }

  /** Every part occurs in `sep.join(parts)`. */
  lemma {:induction false} JoinContainsPart(sep: string, parts: seq<string>, i: nat)
    requires i < |parts|
    ensures Contains(Join(sep, parts), parts[i])
    decreases |parts|
  {
    if |parts| == 1 {
      ContainsInfix([], parts[0], []);
      assert [] + parts[0] + [] == parts[0];
    } else if i == 0 {
      ContainsInfix([], parts[0], sep + Join(sep, parts[1..]));
      assert [] + parts[0] + (sep + Join(sep, parts[1..])) == Join(sep, parts);
    } else {
      JoinContainsPart(sep, parts[1..], i - 1);
      ContainsInfix(parts[0] + sep, Join(sep, parts[1..]), []);
      assert parts[0] + sep + Join(sep, parts[1..]) + [] == Join(sep, parts);
      ContainsTransitive(Join(sep, parts), Join(sep, parts[1..]), parts[i]);
    }
  }
}
