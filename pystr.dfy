/**
  The fragment of Python's `str` that the analyzer relies on: `isspace`,
  `strip`, `split()` with no argument, `split(sep)` with a one-character
  separator, `replace` of one character by another, and slicing `s[:n]`.
*/
module PyStr {

  /** `c.isspace()`: the characters Python treats as whitespace in `split()` and `strip()`. */
  predicate IsSpace(c: char)
  {
    || ('\t' <= c <= '\r')            // tab, line feed, vertical tab, form feed, carriage return
    || ('\U{1C}' <= c <= ' ')         // the four information separators and space
    || c == '\U{85}' || c == '\U{A0}' || c == '\U{1680}'
    || ('\U{2000}' <= c <= '\U{200A}')
    || c == '\U{2028}' || c == '\U{2029}' || c == '\U{202F}' || c == '\U{205F}' || c == '\U{3000}'
  }

  /** Among ASCII characters, exactly space, the five controls from tab to carriage return, and the four separators are whitespace. */
  lemma AsciiSpace(c: char)
    requires c < '\U{80}'
    ensures IsSpace(c) <==> c in " \t\n\r\U{0B}\U{0C}\U{1C}\U{1D}\U{1E}\U{1F}"
  {
  }

  predicate AllSpace(s: string)
  {
    forall i :: 0 <= i < |s| ==> IsSpace(s[i])
  }

  predicate NoSpace(s: string)
  {
    forall i :: 0 <= i < |s| ==> !IsSpace(s[i])
  }

  /** How many whitespace characters `s` starts with. */
  function LeadingSpace(s: string): (n: nat)
    ensures n <= |s|
    ensures forall k :: 0 <= k < n ==> IsSpace(s[k])
    ensures n < |s| ==> !IsSpace(s[n])
  {
    if s != [] && IsSpace(s[0]) then 1 + LeadingSpace(s[1..]) else 0
  }

  /** Where the whitespace that `s` ends with begins. */
  function TrailingSpace(s: string): (n: nat)
    ensures n <= |s|
    ensures forall k :: n <= k < |s| ==> IsSpace(s[k])
    ensures 0 < n ==> !IsSpace(s[n - 1])
  {
    if s != [] && IsSpace(s[|s| - 1]) then TrailingSpace(s[..|s| - 1]) else |s|
  }

  /** `s.lstrip()`. */
  function LStrip(s: string): string
  {
    s[LeadingSpace(s)..]
  }

  /** `s.rstrip()`. */
  function RStrip(s: string): string
  {
    s[..TrailingSpace(s)]
  }

  /** `s.strip()`. It is empty exactly when `s` is all whitespace, and otherwise starts and ends with a non-space. */
  function Strip(s: string): (r: string)
    ensures |r| <= |s|
    ensures r == [] <==> AllSpace(s)
    ensures r != [] ==> !IsSpace(r[0]) && !IsSpace(r[|r| - 1])
  {
    var t := LStrip(s);
    var r := RStrip(t);
    assert LeadingSpace(s) < |s| ==> t[0] == s[LeadingSpace(s)];
    r
  }

  lemma {:induction false} LeadingSpacePadded(a: string, b: string)
    requires AllSpace(a)
    requires b == [] || !IsSpace(b[0])
    ensures LeadingSpace(a + b) == |a|
    decreases |a|
  {
    if a == [] {
      assert a + b == b;
    } else {
      assert (a + b)[1..] == a[1..] + b;
      LeadingSpacePadded(a[1..], b);
    }
  }

  lemma {:induction false} TrailingSpacePadded(b: string, c: string)
    requires AllSpace(c)
    requires b == [] || !IsSpace(b[|b| - 1])
    ensures TrailingSpace(b + c) == |b|
    decreases |c|
  {
    if c == [] {
      assert b + c == b;
    } else {
      assert (b + c)[..|b + c| - 1] == b + c[..|c| - 1];
      TrailingSpacePadded(b, c[..|c| - 1]);
    }
  }

  /** `strip` removes exactly the whitespace padding around a core that starts and ends with a non-space. */
  lemma StripPadded(a: string, b: string, c: string)
    requires AllSpace(a) && AllSpace(c)
    requires b == [] || (!IsSpace(b[0]) && !IsSpace(b[|b| - 1]))
    ensures Strip(a + b + c) == b
  {
    if b == [] {
      assert AllSpace(a + b + c) by {
        forall i | 0 <= i < |a + b + c| ensures IsSpace((a + b + c)[i]) {
          if i < |a| { assert (a + b + c)[i] == a[i]; } else { assert (a + b + c)[i] == c[i - |a|]; }
        }
      }
    } else {
      assert a + b + c == a + (b + c);
      LeadingSpacePadded(a, b + c);
      assert LStrip(a + b + c) == b + c;
      TrailingSpacePadded(b, c);
      assert (b + c)[..|b|] == b;
    }
  }

  /** How many characters the whitespace-free run at the start of `s` has. */
  function WordLength(s: string): (n: nat)
    ensures n <= |s|
    ensures forall k :: 0 <= k < n ==> !IsSpace(s[k])
    ensures n < |s| ==> IsSpace(s[n])
  {
    if s != [] && !IsSpace(s[0]) then 1 + WordLength(s[1..]) else 0
  }

  /** `s.split()`: the maximal runs of non-whitespace characters, in order. */
  function Words(s: string): (ws: seq<string>)
    ensures forall i :: 0 <= i < |ws| ==> ws[i] != [] && NoSpace(ws[i])
    decreases |s|
  {
    var t := LStrip(s);
    if t == [] then []
    else
      var n := WordLength(t);
      assert t[0] == s[LeadingSpace(s)] && !IsSpace(t[0]);
      assert 1 <= n <= |t| <= |s|;
      var w := t[..n];
      assert w != [] && NoSpace(w);
      [w] + Words(t[n..])
  }

  /**
    Reference count of the maximal runs of non-whitespace in `s`: the number of
    positions holding a non-space whose predecessor is whitespace, or which is first
    (`afterSpace` says whether the character before `s` was whitespace or absent).
  */
  function RunStarts(s: string, afterSpace: bool): nat
  {
    if s == [] then 0
    else (if afterSpace && !IsSpace(s[0]) then 1 else 0) + RunStarts(s[1..], IsSpace(s[0]))
  }

  function RunCount(s: string): nat
  {
    RunStarts(s, true)
  }

  lemma {:induction false} RunStartsLStrip(s: string)
    ensures RunStarts(s, true) == RunStarts(LStrip(s), true)
  {
    if s != [] && IsSpace(s[0]) {
      RunStartsLStrip(s[1..]);
      assert LStrip(s) == LStrip(s[1..]);
    }
  }

  lemma {:induction false} RunStartsInsideWord(u: string)
    ensures RunStarts(u, false) == RunStarts(u[WordLength(u)..], true)
  {
    if u != [] && !IsSpace(u[0]) {
      RunStartsInsideWord(u[1..]);
      assert u[WordLength(u)..] == u[1..][WordLength(u[1..])..];
    }
  }

  /** `len(s.split())` is the number of maximal runs of non-whitespace characters. */
  lemma {:induction false} WordsCountRuns(s: string)
    ensures |Words(s)| == RunCount(s)
    decreases |s|
  {
    RunStartsLStrip(s);
    var t := LStrip(s);
    if t != [] {
      assert t[0] == s[LeadingSpace(s)];
      RunStartsInsideWord(t[1..]);
      assert t[WordLength(t)..] == t[1..][WordLength(t[1..])..];
      WordsCountRuns(t[WordLength(t)..]);
    }
  }

  /** `s.split()` is empty exactly when `s` is empty or all whitespace. */
  lemma WordsEmptyIff(s: string)
    ensures Words(s) == [] <==> AllSpace(s)
  {
    var n := LeadingSpace(s);
    assert n < |s| ==> LStrip(s)[0] == s[n];
  }

  /** `sep.join(parts)` for a one-character separator. */
  function Join(parts: seq<string>, sep: char): string
  {
    if parts == [] then []
    else if |parts| == 1 then parts[0]
    else parts[0] + [sep] + Join(parts[1..], sep)
  }

  lemma {:induction false} WordLengthOfJoined(w: string, t: string)
    requires NoSpace(w)
    requires t == [] || IsSpace(t[0])
    ensures WordLength(w + t) == |w|
    decreases |w|
  {
    if w == [] {
      assert w + t == t;
    } else {
      assert (w + t)[1..] == w[1..] + t;
      WordLengthOfJoined(w[1..], t);
    }
  }

  /** A leading space does not change the words. */
  lemma WordsSkipSpace(rest: string)
    ensures Words([' '] + rest) == Words(rest)
  {
    var sp := [' '] + rest;
    assert LeadingSpace(sp) == 1 + LeadingSpace(rest) by {
      assert sp[1..] == rest;
    }
    assert LStrip(sp) == LStrip(rest);
  }

  /** A text starting with a non-empty space-free word followed by a space splits into that word first. */
  lemma WordsLeading(w: string, sp: string)
    requires w != [] && NoSpace(w)
    requires sp != [] && IsSpace(sp[0])
    ensures Words(w + sp) == [w] + Words(sp)
  {
    var s := w + sp;
    assert LStrip(s) == s by {
      LeadingSpacePadded([], s);
      assert [] + s == s;
    }
    WordLengthOfJoined(w, sp);
    assert s[..|w|] == w && s[|w|..] == sp;
  }

  /** `split()` on a word followed by a space and more text yields that word, then the words of the rest. */
  lemma WordsCons(w: string, rest: string)
    requires w != [] && NoSpace(w)
    ensures Words(w + [' '] + rest) == [w] + Words(rest)
  {
    var sp := [' '] + rest;
    assert w + [' '] + rest == w + sp;
    WordsLeading(w, sp);
    WordsSkipSpace(rest);
  }

  lemma WordsSingle(w: string)
    requires w != [] && NoSpace(w)
    ensures Words(w) == [w]
  {
    assert LStrip(w) == w by {
      LeadingSpacePadded([], w);
      assert [] + w == w;
    }
    WordLengthOfJoined(w, []);
    assert w + [] == w;
    assert w[..|w|] == w && w[|w|..] == [];
  }

  predicate IsWordList(ws: seq<string>)
  {
    forall i :: 0 <= i < |ws| ==> ws[i] != [] && NoSpace(ws[i])
  }

  lemma WordsOfJoinStep(ws: seq<string>)
    requires |ws| > 1 && ws[0] != [] && NoSpace(ws[0])
    requires Words(Join(ws[1..], ' ')) == ws[1..]
    ensures Words(Join(ws, ' ')) == ws
  {
    var rest := Join(ws[1..], ' ');
    assert Join(ws, ' ') == ws[0] + [' '] + rest;
    WordsCons(ws[0], rest);
    assert ws == [ws[0]] + ws[1..];
  }

  /** `' '.join` of non-empty space-free words is split back into the same words by `split()`. */
  lemma {:induction false} WordsOfJoin(ws: seq<string>)
    requires IsWordList(ws)
    ensures Words(Join(ws, ' ')) == ws
    decreases |ws|
  {
    if ws == [] {
      assert LStrip([]) == [];
    } else if |ws| == 1 {
      WordsSingle(ws[0]);
      assert ws == [ws[0]];
    } else {
      assert IsWordList(ws[1..]) by {
        forall i | 0 <= i < |ws| - 1 ensures ws[1..][i] != [] && NoSpace(ws[1..][i]) {
          assert ws[1..][i] == ws[i + 1];
        }
      }
      WordsOfJoin(ws[1..]);
      WordsOfJoinStep(ws);
    }
  }

  /** `s.replace(a, b)` for single characters `a` and `b`. */
  function ReplaceChar(s: string, a: char, b: char): (r: string)
    ensures |r| == |s|
    ensures forall i :: 0 <= i < |s| ==> r[i] == (if s[i] == a then b else s[i])
  {
    if s == [] then [] else [if s[0] == a then b else s[0]] + ReplaceChar(s[1..], a, b)
  }

  /**
    `s.split(sep)` for a one-character separator: one part more than there are
    separators, no part holding the separator, empty parts kept.
  */
  function SplitOn(s: string, sep: char): (parts: seq<string>)
    ensures |parts| == multiset(s)[sep] + 1
    ensures forall i :: 0 <= i < |parts| ==> sep !in parts[i]
  {
    if s == [] then [[]]
    else
      var rest := SplitOn(s[1..], sep);
      assert s == [s[0]] + s[1..];
      if s[0] == sep then [[]] + rest else [[s[0]] + rest[0]] + rest[1..]
  }

  /** Joining a part in front of a list puts one separator between them, unless the list is empty. */
  lemma JoinCons(w: string, ps: seq<string>, sep: char)
    ensures Join([w] + ps, sep) == if ps == [] then w else w + [sep] + Join(ps, sep)
  {
    assert ([w] + ps)[0] == w && ([w] + ps)[1..] == ps;
  }

  /** Prefixing the first part with a character prefixes the joined text with it. */
  lemma JoinHead(c: char, ps: seq<string>, sep: char)
    requires ps != []
    ensures Join([[c] + ps[0]] + ps[1..], sep) == [c] + Join(ps, sep)
  {
    JoinCons([c] + ps[0], ps[1..], sep);
    JoinCons(ps[0], ps[1..], sep);
    assert [ps[0]] + ps[1..] == ps;
  }

  /** Joining the parts of `s.split(sep)` with `sep` gives `s` back. */
  lemma {:induction false} JoinSplitOn(s: string, sep: char)
    ensures Join(SplitOn(s, sep), sep) == s
  {
    if s != [] {
      var rest := SplitOn(s[1..], sep);
      JoinSplitOn(s[1..], sep);
      if s[0] == sep {
        JoinCons([], rest, sep);
      } else {
        JoinHead(s[0], rest, sep);
      }
    }
  }

  lemma {:induction false} SplitOnPart(w: string, t: string, sep: char)
    requires sep !in w
    ensures SplitOn(w + t, sep) == [w + SplitOn(t, sep)[0]] + SplitOn(t, sep)[1..]
    decreases |w|
  {
    var tail := SplitOn(t, sep);
    if w == [] {
      assert w + t == t && w + tail[0] == tail[0];
      assert tail == [tail[0]] + tail[1..];
    } else {
      var u := w + t;
      var rest := SplitOn(u[1..], sep);
      assert rest == [w[1..] + tail[0]] + tail[1..] by {
        assert u[1..] == w[1..] + t;
        SplitOnPart(w[1..], t, sep);
      }
      assert SplitOn(u, sep) == [[u[0]] + rest[0]] + rest[1..] by {
        assert u[0] == w[0] && u[0] != sep;
      }
      assert [w[0]] + (w[1..] + tail[0]) == w + tail[0];
    }
  }

  /** Splitting `sep.join(parts)` on `sep` gives the parts back when none holds `sep`. */
  lemma {:induction false} SplitOnJoin(parts: seq<string>, sep: char)
    requires parts != []
    requires forall i :: 0 <= i < |parts| ==> sep !in parts[i]
    ensures SplitOn(Join(parts, sep), sep) == parts
    decreases |parts|
  {
    if |parts| == 1 {
      SplitOnPart(parts[0], [], sep);
      assert parts[0] + [] == parts[0];
    } else {
      var rest := Join(parts[1..], sep);
      assert Join(parts, sep) == parts[0] + ([sep] + rest);
      SplitOnPart(parts[0], [sep] + rest, sep);
      assert ([sep] + rest)[1..] == rest;
      SplitOnJoin(parts[1..], sep);
      assert parts[0] + [] == parts[0];
    }
  }

  /** `s[:n]`: the whole of `s` when it is shorter than `n`, otherwise its first `n` characters. */
  function Prefix(s: string, n: nat): (r: string)
    ensures |r| == if |s| <= n then |s| else n
    ensures r <= s
  {
    if |s| <= n then s else s[..n]
  }
}
