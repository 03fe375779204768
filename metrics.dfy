/**
  The metrics engine shared by both analyzer variants: word, character and
  sentence counts computed from the text alone.
*/
module Metrics {
  import opened PyStr

  /** `len(text.split())`. */
  function WordCount(text: string): (n: nat)
    ensures n == RunCount(text)
    ensures n == 0 <==> AllSpace(text)
  {
    WordsCountRuns(text);
    WordsEmptyIff(text);
    |Words(text)|
  }

  /** `len(text)`: characters of the raw input, with no normalisation. */
  function CharCount(text: string): (n: nat)
    ensures n == |text|
  {
    |text|
  }

  predicate IsTerminator(c: char)
  {
    c == '.' || c == '!' || c == '?'
  }

  /** Number of sentence terminators (`.`, `!`, `?`) in the text. */
  function Terminators(text: string): nat
  {
    multiset(text)['.'] + multiset(text)['!'] + multiset(text)['?']
  }

  /** `text.replace('!', '.').replace('?', '.')`. */
  function Normalize(text: string): (r: string)
    ensures |r| == |text|
    ensures forall i :: 0 <= i < |text| ==> (r[i] == '.' <==> IsTerminator(text[i]))
    ensures forall i :: 0 <= i < |text| && !IsTerminator(text[i]) ==> r[i] == text[i]
  {
    ReplaceChar(ReplaceChar(text, '!', '.'), '?', '.')
  }

  lemma {:induction false} DotsMatchTerminators(text: string, r: string)
    requires |r| == |text|
    requires forall i :: 0 <= i < |text| ==> (r[i] == '.' <==> IsTerminator(text[i]))
    ensures multiset(r)['.'] == Terminators(text)
  {
    if text != [] {
      DotsMatchTerminators(text[1..], r[1..]);
      assert r == [r[0]] + r[1..];
      assert text == [text[0]] + text[1..];
    }
  }

  /** After normalisation there are exactly as many dots as the text had terminators. */
  lemma NormalizedDots(text: string)
    ensures multiset(Normalize(text))['.'] == Terminators(text)
  {
    DotsMatchTerminators(text, Normalize(text));
  }

  /** `text.replace('!', '.').replace('?', '.').split('.')`. */
  function Fragments(text: string): (r: seq<string>)
    ensures |r| == 1 + Terminators(text)
    ensures forall i :: 0 <= i < |r| ==> '.' !in r[i]
  {
    NormalizedDots(text);
    SplitOn(Normalize(text), '.')
  }

  /** `[s for s in frags if s.strip()]`. */
  function NonBlank(frags: seq<string>): (r: seq<string>)
    ensures |r| <= |frags|
  {
    if frags == [] then []
    else if Strip(frags[0]) != [] then [frags[0]] + NonBlank(frags[1..])
    else NonBlank(frags[1..])
  }

  /** The filter keeps each non-blank fragment as often as it occurs, and no blank one. */
  lemma {:induction false} NonBlankMultiset(frags: seq<string>)
    ensures forall f :: multiset(NonBlank(frags))[f] == if Strip(f) != [] then multiset(frags)[f] else 0
  {
    if frags != [] {
      NonBlankMultiset(frags[1..]);
      assert frags == [frags[0]] + frags[1..];
    }
  }

  /** The filter keeps exactly the fragments whose stripped form is non-empty. */
  lemma {:induction false} NonBlankMembers(frags: seq<string>, f: string)
    ensures f in NonBlank(frags) <==> f in frags && Strip(f) != []
  {
    if frags != [] {
      NonBlankMembers(frags[1..], f);
      assert frags == [frags[0]] + frags[1..];
    }
  }

  /** The filter drops everything exactly when every fragment is blank. */
  lemma {:induction false} NonBlankEmpty(frags: seq<string>)
    ensures NonBlank(frags) == [] <==> forall i :: 0 <= i < |frags| ==> AllSpace(frags[i])
  {
    if frags != [] {
      var t := frags[1..];
      NonBlankEmpty(t);
      assert (forall i :: 0 <= i < |frags| ==> AllSpace(frags[i]))
        <==> AllSpace(frags[0]) && forall i :: 0 <= i < |t| ==> AllSpace(t[i]) by {
        assert forall i :: 1 <= i < |frags| ==> frags[i] == t[i - 1];
      }
    }
  }

  /** The filter drops nothing exactly when no fragment is blank. */
  lemma {:induction false} NonBlankAll(frags: seq<string>)
    ensures |NonBlank(frags)| == |frags| <==> forall i :: 0 <= i < |frags| ==> !AllSpace(frags[i])
  {
    if frags != [] {
      var t := frags[1..];
      NonBlankAll(t);
      assert (forall i :: 0 <= i < |frags| ==> !AllSpace(frags[i]))
        <==> !AllSpace(frags[0]) && forall i :: 0 <= i < |t| ==> !AllSpace(t[i]) by {
        assert forall i :: 1 <= i < |frags| ==> frags[i] == t[i - 1];
      }
      if AllSpace(frags[0]) {
        assert NonBlank(frags) == NonBlank(t);
        assert |NonBlank(t)| <= |t| < |frags|;
      } else {
        assert NonBlank(frags) == [frags[0]] + NonBlank(t);
      }
    }
  }

  /** `[s for s in fragments if s.strip()]`: every non-blank fragment, as often as it occurs, and nothing else. */
  function Sentences(text: string): (r: seq<string>)
    ensures forall f :: multiset(r)[f] == if Strip(f) != [] then multiset(Fragments(text))[f] else 0
  {
    NonBlankMultiset(Fragments(text));
    NonBlank(Fragments(text))
  }

  /** The sentence count: fragments between terminators that hold a non-space character. */
  function SentenceCount(text: string): (n: nat)
    ensures n <= 1 + Terminators(text)
  {
    |Sentences(text)|
  }

  /**
    No sentence exactly when every fragment is blank, and one more sentence
    than there are terminators exactly when no fragment is.
  */
  lemma SentenceCountExtremes(text: string)
    ensures SentenceCount(text) == 0 <==> forall i :: 0 <= i < |Fragments(text)| ==> AllSpace(Fragments(text)[i])
    ensures SentenceCount(text) == 1 + Terminators(text)
      <==> forall i :: 0 <= i < |Fragments(text)| ==> !AllSpace(Fragments(text)[i])
  {
    NonBlankEmpty(Fragments(text));
    NonBlankAll(Fragments(text));
  }

  /** A sentence is exactly a fragment that contains something other than whitespace. */
  lemma SentencesAreNonBlankFragments(text: string, f: string)
    ensures f in Sentences(text) <==> f in Fragments(text) && !AllSpace(f)
  {
    NonBlankMembers(Fragments(text), f);
  }

  /** Text without any terminator is a single sentence, unless it is blank. */
  lemma {:induction false} NoTerminatorOneSentence(text: string)
    requires Terminators(text) == 0
    ensures SentenceCount(text) == if AllSpace(text) then 0 else 1
  {
    NormalizedDots(text);
    var n := Normalize(text);
    assert n == text by {
      forall i | 0 <= i < |text| ensures n[i] == text[i] {
        assert text[i] in multiset(text);
      }
    }
    var frags := SplitOn(n, '.');
    assert |frags| == 1;
    assert [text] == frags by {
      JoinSplitOn(n, '.');
    }
  }

  lemma NormalizeThree(a: string, b: string, c: string)
    requires forall i :: 0 <= i < |a| ==> !IsTerminator(a[i])
    requires forall i :: 0 <= i < |b| ==> !IsTerminator(b[i])
    requires forall i :: 0 <= i < |c| ==> !IsTerminator(c[i])
    ensures Normalize(a + "!" + b + "?" + c + ".") == a + "." + (b + "." + (c + "." + []))
  {
    var text := a + "!" + b + "?" + c + ".";
    var n := Normalize(text);
    var m := a + "." + (b + "." + (c + "." + []));
    assert |n| == |m|;
    forall i | 0 <= i < |n| ensures n[i] == m[i] {
      if i < |a| {
        assert text[i] == a[i] && m[i] == a[i] && !IsTerminator(a[i]);
      } else if i == |a| {
      } else if i < |a| + 1 + |b| {
        assert text[i] == b[i - |a| - 1] && m[i] == b[i - |a| - 1] && !IsTerminator(b[i - |a| - 1]);
      } else if i == |a| + 1 + |b| {
      } else if i < |a| + 2 + |b| + |c| {
        assert text[i] == c[i - |a| - |b| - 2] && m[i] == c[i - |a| - |b| - 2] && !IsTerminator(c[i - |a| - |b| - 2]);
      }
    }
  }

  lemma JoinFour(a: string, b: string, c: string, e: string, sep: char)
    ensures Join([a, b, c, e], sep) == a + [sep] + (b + [sep] + (c + [sep] + e))
  {
    assert Join([e], sep) == e;
    assert Join([c, e], sep) == c + [sep] + e by { assert [c, e][1..] == [e]; }
    assert Join([b, c, e], sep) == b + [sep] + (c + [sep] + e) by { assert [b, c, e][1..] == [c, e]; }
    assert [a, b, c, e][1..] == [b, c, e];
  }

  lemma NonBlankCons(f: string, rest: seq<string>)
    ensures NonBlank([f] + rest) == if Strip(f) == [] then NonBlank(rest) else [f] + NonBlank(rest)
  {
    assert ([f] + rest)[1..] == rest;
  }

  lemma NonBlankOne(c: string)
    requires Strip(c) != []
    ensures NonBlank([c, []]) == [c]
  {
    var e: string := [];
    NonBlankCons(e, []);
    assert [e] + [] == [e];
    NonBlankCons(c, [e]);
    assert [c] + [e] == [c, e];
  }

  lemma NonBlankTwo(b: string, c: string)
    requires Strip(b) != [] && Strip(c) != []
    ensures NonBlank([b, c, []]) == [b, c]
  {
    var e: string := [];
    NonBlankOne(c);
    NonBlankCons(b, [c, e]);
    assert [b] + [c, e] == [b, c, e];
  }

  lemma NonBlankThree(a: string, b: string, c: string)
    requires Strip(a) != [] && Strip(b) != [] && Strip(c) != []
    ensures NonBlank([a, b, c, []]) == [a, b, c]
  {
    NonBlankTwo(b, c);
    NonBlankCons(a, [b, c, []]);
    assert [a] + [b, c, []] == [a, b, c, []];
  }

  /** Three non-blank clauses closed by `!`, `?` and `.` make three sentences. */
  lemma ThreeSentences(a: string, b: string, c: string)
    requires forall i :: 0 <= i < |a| ==> !IsTerminator(a[i])
    requires forall i :: 0 <= i < |b| ==> !IsTerminator(b[i])
    requires forall i :: 0 <= i < |c| ==> !IsTerminator(c[i])
    requires !AllSpace(a) && !AllSpace(b) && !AllSpace(c)
    ensures SentenceCount(a + "!" + b + "?" + c + ".") == 3
  {
    var parts := [a, b, c, []];
    NormalizeThree(a, b, c);
    JoinFour(a, b, c, [], '.');
    SplitOnJoin(parts, '.');
    NonBlankThree(a, b, c);
  }

  /** "Hello! How are you? Fine." has three sentences. */
  lemma ExampleSentences(a: string, b: string, c: string)
    requires a == "Hello" && b == " How are you" && c == " Fine"
    ensures SentenceCount(a + "!" + b + "?" + c + ".") == 3
  {
    assert !IsSpace(a[0]) && !IsSpace(b[1]) && !IsSpace(c[1]);
    ThreeSentences(a, b, c);
  }

  /** The test input "I love coding with Python and AI!" is these seven words joined by single spaces. */
  lemma ExampleWords(ws: seq<string>)
    requires ws == ["I", "love", "coding", "with", "Python", "and", "AI!"]
    ensures WordCount(Join(ws, ' ')) == 7
  {
    assert forall i :: 0 <= i < |ws| ==> ws[i] != [] && NoSpace(ws[i]);
    WordsOfJoin(ws);
  }

  /** "Some text" has two words. */
  lemma ExampleTwoWords(w1: string, w2: string)
    requires w1 == "Some" && w2 == "text"
    ensures WordCount(w1 + " " + w2) == 2
  {
    assert NoSpace(w1) && NoSpace(w2);
    WordsSingle(w2);
    WordsCons(w1, w2);
  }
}
