/**
 * The JavaScript string operations the bot applies to handles and answers:
 * `indexOf`, `replace` with a one-character string pattern (first occurrence
 * only), `trim` and `Array.prototype.join`, over `seq<char>`, together with
 * the splitting and concatenation used to state what they produce.
 */
module Strings {
  import opened Wrappers

  /** The WhiteSpace and LineTerminator code points that `String.prototype.trim` removes. */
  predicate IsJsWhitespace(c: char)
  {
    || c == '\t' || c == '\n' || c == '\U{B}' || c == '\U{C}' || c == '\r' || c == ' '
    || c == '\U{A0}' || c == '\U{1680}' || ('\U{2000}' <= c <= '\U{200A}')
    || c == '\U{2028}' || c == '\U{2029}' || c == '\U{202F}' || c == '\U{205F}'
    || c == '\U{3000}' || c == '\U{FEFF}'
  }

  /** `s.indexOf(c)`, with None for -1. */
  function IndexOf(s: string, c: char): (r: Option<nat>)
    ensures r.None? <==> c !in s
    ensures r.Some? ==> r.value < |s| && s[r.value] == c && c !in s[..r.value]
  {
    if s == [] then None
    else if s[0] == c then Some(0)
    else
      match IndexOf(s[1..], c)
      case None => None
      case Some(i) =>
        assert s[..i + 1] == [s[0]] + s[1..][..i];
        Some(i + 1)
  }

  /** `s.replace(c, '')`: a one-character string pattern removes its first occurrence only. */
  function RemoveFirst(s: string, c: char): (r: string)
    ensures |r| <= |s|
    ensures c !in s ==> r == s
  {
    if s == [] then s
    else if s[0] == c then s[1..]
    else [s[0]] + RemoveFirst(s[1..], c)
  }

  /** RemoveFirst cuts out the character at the first index of `c`, and changes nothing when there is none. */
  lemma {:induction false} RemoveFirstCuts(s: string, c: char)
    ensures match IndexOf(s, c)
      case None => RemoveFirst(s, c) == s
      case Some(i) => RemoveFirst(s, c) == s[..i] + s[i + 1..]
  {
    if s != [] && s[0] != c {
      RemoveFirstCuts(s[1..], c);
      match IndexOf(s[1..], c)
      case None =>
      case Some(i) =>
        assert s[..i + 1] == [s[0]] + s[1..][..i];
        assert s[i + 2..] == s[1..][i + 1..];
    }
  }

  /** RemoveFirst deletes exactly one occurrence of `c` when there is one, and nothing else. */
  lemma {:induction false} RemoveFirstCount(s: string, c: char)
    ensures c !in s ==> RemoveFirst(s, c) == s
    ensures c in s ==> (|RemoveFirst(s, c)| == |s| - 1
      && multiset(RemoveFirst(s, c)) == multiset(s) - multiset{c})
  {
    RemoveFirstCuts(s, c);
    if c in s {
      var i := IndexOf(s, c).value;
      var before, after := s[..i], s[i + 1..];
      assert s == before + [c] + after;
      assert RemoveFirst(s, c) == before + after;
      calc {
        multiset(s);
        multiset(before + [c] + after);
        multiset(before) + multiset{c} + multiset(after);
      }
      assert multiset(RemoveFirst(s, c)) == multiset(before) + multiset(after);
    }
  }

  /** `s.trimStart()`. */
  function TrimStart(s: string): (r: string)
    ensures |r| <= |s|
    ensures r != [] ==> !IsJsWhitespace(r[0])
  {
    if s != [] && IsJsWhitespace(s[0]) then TrimStart(s[1..]) else s
  }

  /** TrimStart drops the leading whitespace and nothing else. */
  lemma {:induction false} TrimStartDrops(s: string)
    ensures var r := TrimStart(s);
      && |r| <= |s| && r == s[|s| - |r|..]
      && (r != [] ==> !IsJsWhitespace(r[0]))
      && (forall i :: 0 <= i < |s| - |r| ==> IsJsWhitespace(s[i]))
  {
    if s != [] && IsJsWhitespace(s[0]) {
      TrimStartDrops(s[1..]);
      var r := TrimStart(s);
      forall i | 0 <= i < |s| - |r|
        ensures IsJsWhitespace(s[i])
      {
        if i > 0 {
          assert s[i] == s[1..][i - 1];
        }
      }
    }
  }

  /** `s.trimEnd()`. */
  function TrimEnd(s: string): (r: string)
    ensures |r| <= |s|
    ensures r != [] ==> !IsJsWhitespace(r[|r| - 1])
  {
    if s != [] && IsJsWhitespace(s[|s| - 1]) then TrimEnd(s[..|s| - 1]) else s
  }

  /** TrimEnd drops the trailing whitespace and nothing else. */
  lemma {:induction false} TrimEndDrops(s: string)
    ensures var r := TrimEnd(s);
      && |r| <= |s| && r == s[..|r|]
      && (r != [] ==> !IsJsWhitespace(r[|r| - 1]))
      && (forall i :: |r| <= i < |s| ==> IsJsWhitespace(s[i]))
  {
    if s != [] && IsJsWhitespace(s[|s| - 1]) {
      TrimEndDrops(s[..|s| - 1]);
      var r := TrimEnd(s);
      forall i | |r| <= i < |s|
        ensures IsJsWhitespace(s[i])
      {
        if i < |s| - 1 {
          assert s[i] == s[..|s| - 1][i];
        }
      }
    }
  }

  /** `s.trim()`: the infix of `s` left once whitespace is removed from both ends. */
  function Trim(s: string): (r: string)
    ensures |r| <= |s|
    ensures r != [] ==> !IsJsWhitespace(r[0]) && !IsJsWhitespace(r[|r| - 1])
  {
    TrimStartDrops(s);
    TrimEndDrops(TrimStart(s));
    TrimEnd(TrimStart(s))
  }

  /** Trim keeps the infix of its input that starts after the leading whitespace, and cuts only whitespace. */
  lemma {:induction false} TrimIsInfix(s: string)
    ensures var start, r := |s| - |TrimStart(s)|, Trim(s);
      && 0 <= start && start + |r| <= |s| && r == s[start..start + |r|]
      && (forall k :: 0 <= k < start ==> IsJsWhitespace(s[k]))
      && (forall k :: start + |r| <= k < |s| ==> IsJsWhitespace(s[k]))
      && (r != [] ==> !IsJsWhitespace(r[0]) && !IsJsWhitespace(r[|r| - 1]))
  {
    var t := TrimStart(s);
    TrimStartDrops(s);
    var r := TrimEnd(t);
    TrimEndDrops(t);
    var start := |s| - |t|;
    assert t == s[start..];
    assert r == t[..|r|];
    forall k | start + |r| <= k < |s|
      ensures IsJsWhitespace(s[k])
    {
      assert s[k] == t[k - start];
    }
  }

  /** `lines.join(sep)` with a one-character separator. */
  function Join(lines: seq<string>, sep: char): (r: string)
    ensures lines != [] ==> lines[0] <= r
    ensures |lines| > 1 ==> sep in r
  {
    if lines == [] then []
    else if |lines| == 1 then lines[0]
    else lines[0] + [sep] + Join(lines[1..], sep)
  }

  /** `s.split(sep)`: the pieces between the occurrences of `sep`; never empty. */
  function Split(s: string, sep: char): (r: seq<string>)
    ensures |r| >= 1
    ensures forall k :: 0 <= k < |r| ==> sep !in r[k]
    decreases |s|
  {
    match IndexOf(s, sep)
    case None => [s]
    case Some(i) => [s[..i]] + Split(s[i + 1..], sep)
  }

  /** Join and Split are inverse when no line holds the separator: every line can be read back. */
  lemma {:induction false} SplitJoin(lines: seq<string>, sep: char)
    requires lines != []
    requires forall k :: 0 <= k < |lines| ==> sep !in lines[k]
    ensures Split(Join(lines, sep), sep) == lines
  {
    if |lines| > 1 {
      var s := Join(lines, sep);
      var head := lines[0];
      assert s == head + [sep] + Join(lines[1..], sep);
      assert s[|head|] == sep && s[..|head|] == head;
      assert sep !in s[..|head|];
      assert IndexOf(s, sep) == Some(|head|);
      assert s[|head| + 1..] == Join(lines[1..], sep);
      SplitJoin(lines[1..], sep);
      assert lines == [head] + lines[1..];
    }
  }

  /** The concatenation of a sequence of strings. */
  function Concat(parts: seq<string>): string
  {
    if parts == [] then [] else parts[0] + Concat(parts[1..])
  }
}
