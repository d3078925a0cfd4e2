/** The string functions of the Go standard library the relay leans on. Text is a sequence of
    Unicode characters.

    Each function is written by recursion and comes with the facts that pin it down: the parts
    of `Split` hold no separator and the first of them ends at the first separator, `Cut` gives
    both sides of it, and `TrimSpace` leaves a text alone exactly when neither of its ends is
    white space. `Lines` is what bufio.Scanner yields: the text up to every line feed, without
    a carriage return in front of it, and a last line only when there is something behind the
    last line feed. The limit the scanner puts on the length of a line is not modelled. */
module Strings {
  import opened Options

  /** strings.Contains. */
  predicate Contains(s: string, part: string) {
    part <= s || (s != [] && Contains(s[1..], part))
  }

  /** It occurs at some place. */
  lemma {:induction false} ContainsAt(s: string, part: string)
    ensures Contains(s, part) <==> exists i :: 0 <= i <= |s| && part <= s[i..]
  {
    if part <= s {
      assert s[0..] == s;
    } else if s != [] {
      ContainsAt(s[1..], part);
      forall i | 0 <= i < |s| ensures s[1..][i..] == s[i + 1..] {
      }
      if Contains(s, part) {
        var i :| 0 <= i <= |s[1..]| && part <= s[1..][i..];
        assert part <= s[i + 1..];
      }
      if i :| 0 <= i <= |s| && part <= s[i..] {
        assert s[0..] == s;
        assert part <= s[1..][i - 1..];
      }
    } else {
      assert forall i :: 0 <= i <= |s| ==> s[i..] == s;
    }
  }

  function Split(s: string, sep: char): (r: seq<string>)
    ensures r != []
  {
    if s == [] then [[]]
    else
      var rest := Split(s[1..], sep);
      if s[0] == sep then [[]] + rest else [[s[0]] + rest[0]] + rest[1..]
  }

  /** No part holds the separator. */
  lemma {:induction false} SplitParts(s: string, sep: char)
    ensures forall i :: 0 <= i < |Split(s, sep)| ==> sep !in Split(s, sep)[i]
  {
    if s != [] {
      SplitParts(s[1..], sep);
    }
  }

  /** strings.Cut: the text before and after the first separator. */
  function Cut(s: string, sep: char): (r: Option<(string, string)>)
    ensures r.None? <==> sep !in s
    ensures r.Some? ==> s == r.value.0 + [sep] + r.value.1 && sep !in r.value.0
  {
    if s == [] then None
    else if s[0] == sep then Some(([], s[1..]))
    else
      match Cut(s[1..], sep)
      case None => None
      case Some((before, after)) => Some(([s[0]] + before, after))
  }

  lemma {:induction false} CutAt(before: string, sep: char, after: string)
    requires sep !in before
    ensures Cut(before + [sep] + after, sep) == Some((before, after))
  {
    var s := before + [sep] + after;
    if before == [] {
      assert s[1..] == after;
    } else {
      assert s[1..] == before[1..] + [sep] + after;
      CutAt(before[1..], sep, after);
      assert [before[0]] + before[1..] == before;
    }
  }

  /** Splitting at the first separator. */
  lemma {:induction false} SplitAt(part: string, sep: char, rest: string)
    requires sep !in part
    ensures Split(part, sep) == [part] && Split(part + [sep] + rest, sep) == [part] + Split(rest, sep)
  {
    var s := part + [sep] + rest;
    if part == [] {
      assert s[1..] == rest;
    } else {
      assert s[1..] == part[1..] + [sep] + rest;
      SplitAt(part[1..], sep, rest);
      assert [part[0]] + part[1..] == part;
    }
  }

  /** unicode.IsSpace. */
  predicate IsSpace(c: char) {
    || '\t' <= c <= '\r' || c == ' ' || c == '\U{85}' || c == '\U{A0}' || c == '\U{1680}'
    || '\U{2000}' <= c <= '\U{200A}' || c == '\U{2028}' || c == '\U{2029}' || c == '\U{202F}'
    || c == '\U{205F}' || c == '\U{3000}'
  }

  function TrimLeft(s: string): string {
    if s != [] && IsSpace(s[0]) then TrimLeft(s[1..]) else s
  }

  function TrimRight(s: string): string {
    if s != [] && IsSpace(s[|s| - 1]) then TrimRight(s[..|s| - 1]) else s
  }

  /** strings.TrimSpace. */
  function TrimSpace(s: string): string { TrimRight(TrimLeft(s)) }

  /** Text that starts and ends with no space. */
  predicate Trimmed(s: string) { s != [] ==> !IsSpace(s[0]) && !IsSpace(s[|s| - 1]) }

  lemma {:induction false} TrimRightKeepsStart(s: string)
    ensures TrimRight(s) <= s
    ensures TrimRight(s) != [] ==> !IsSpace(TrimRight(s)[|TrimRight(s)| - 1])
  {
    if s != [] && IsSpace(s[|s| - 1]) {
      TrimRightKeepsStart(s[..|s| - 1]);
    }
  }

  lemma {:induction false} TrimLeftStart(s: string)
    ensures TrimLeft(s) != [] ==> !IsSpace(TrimLeft(s)[0])
  {
    if s != [] && IsSpace(s[0]) {
      TrimLeftStart(s[1..]);
    }
  }

  /** Trimming yields trimmed text, and leaves exactly such text alone. */
  lemma TrimSpaceTrims(s: string)
    ensures Trimmed(TrimSpace(s))
    ensures TrimSpace(s) == s <==> Trimmed(s)
  {
    TrimLeftStart(s);
    TrimRightKeepsStart(TrimLeft(s));
  }

  predicate Blank(s: string) { forall c :: c in s ==> IsSpace(c) }

  lemma {:induction false} TrimLeftDrops(pre: string, s: string)
    requires Blank(pre)
    ensures TrimLeft(pre + s) == TrimLeft(s)
  {
    if pre == [] {
      assert pre + s == s;
    } else {
      assert (pre + s)[0] == pre[0] && (pre + s)[1..] == pre[1..] + s;
      TrimLeftDrops(pre[1..], s);
    }
  }

  lemma {:induction false} TrimRightDrops(s: string, post: string)
    requires Blank(post)
    ensures TrimRight(s + post) == TrimRight(s)
  {
    if post == [] {
      assert s + post == s;
    } else {
      var n := |post| - 1;
      assert (s + post)[|s| + n] == post[n] && (s + post)[..|s| + n] == s + post[..n];
      TrimRightDrops(s, post[..n]);
    }
  }

  /** What is trimmed is exactly the white space around the text. */
  lemma TrimSpaceAround(pre: string, core: string, post: string)
    requires Blank(pre) && Trimmed(core) && Blank(post)
    ensures TrimSpace(pre + core + post) == core
  {
    assert pre + core + post == pre + (core + post);
    TrimLeftDrops(pre, core + post);
    if core == [] {
      assert core + post == post + [];
      TrimLeftDrops(post, []);
    } else {
      assert (core + post)[0] == core[0];
      TrimRightDrops(core, post);
      TrimSpaceTrims(core);
    }
  }

  /** A line without a trailing carriage return. */
  function DropReturn(line: string): string {
    if line != [] && line[|line| - 1] == '\r' then line[..|line| - 1] else line
  }

  /** The lines bufio.Scanner yields. */
  function Lines(s: string): seq<string>
    decreases |s|
  {
    if s == [] then []
    else
      match Cut(s, '\n')
      case None => [DropReturn(s)]
      case Some((line, rest)) => [DropReturn(line)] + Lines(rest)
  }

  /** A text without a line feed is one line, unless it is empty; a line feed ends a line, and
      what is behind it is read the same way. */
  lemma LinesAt(line: string, rest: string)
    requires '\n' !in line
    ensures Lines(line) == if line == "" then [] else [DropReturn(line)]
    ensures Lines(line + "\n" + rest) == [DropReturn(line)] + Lines(rest)
  {
    CutAt(line, '\n', rest);
    assert line + "\n" + rest == line + ['\n'] + rest;
  }

  /** One carriage return is dropped from the end of a line, and nothing else. */
  lemma DropReturnAt(line: string)
    ensures DropReturn(line + "\r") == line
    ensures (line == "" || line[|line| - 1] != '\r') ==> DropReturn(line) == line
  {
    assert (line + "\r")[..|line|] == line;
  }

  // ---- Order ------------------------------------------------------------------------

  /** The order of sort.Strings. */
  predicate LexLeq(a: string, b: string) {
    a == [] || (b != [] && (a[0] < b[0] || (a[0] == b[0] && LexLeq(a[1..], b[1..]))))
  }

  lemma {:induction false} LexTotal(a: string, b: string)
    ensures LexLeq(a, b) || LexLeq(b, a)
  {
    if a != [] && b != [] && a[0] == b[0] {
      LexTotal(a[1..], b[1..]);
    }
  }

  lemma {:induction false} LexAntisymmetric(a: string, b: string)
    requires LexLeq(a, b) && LexLeq(b, a)
    ensures a == b
  {
    if a != [] {
      LexAntisymmetric(a[1..], b[1..]);
      assert a == [a[0]] + a[1..] && b == [b[0]] + b[1..];
    }
  }

  lemma {:induction false} LexTransitive(a: string, b: string, c: string)
    requires LexLeq(a, b) && LexLeq(b, c)
    ensures LexLeq(a, c)
  {
    if a != [] && a[0] == b[0] == c[0] {
      LexTransitive(a[1..], b[1..], c[1..]);
    }
  }

  /** `me` is the lexicographically smallest of `ids`. */
  predicate IsLeast(me: string, ids: set<string>) {
    me in ids && forall id :: id in ids ==> LexLeq(me, id)
  }
}
