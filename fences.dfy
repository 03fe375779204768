/**
  Removal of Markdown code fences from a model reply, as done by
  `re.sub(r'```json\n|```', '', reply).strip()` in both analyzer variants.

  The regular expression is scanned left to right; at each position the first
  alternative (the opening fence with its `json` tag and newline) is tried
  before the bare fence, matches do not overlap, and every other character is
  copied unchanged.
*/
module Fences {
  import opened PyStr

  /** A bare fence: three backticks. */
  const Fence: string := "```"

  /** The opening fence of a JSON block, up to and including its newline. */
  const JsonFence: string := "```json\n"

  /** What follows the three backticks of an opening JSON fence. */
  const JsonTag: string := "json\n"

  predicate NoBacktick(s: string)
  {
    '`' !in s
  }

  /** `re.sub(r'```json\n|```', '', s)`. */
  function RemoveFences(s: string): (r: string)
    ensures |r| <= |s|
    decreases |s|
  {
    if JsonFence <= s then RemoveFences(s[|JsonFence|..])
    else if Fence <= s then RemoveFences(s[|Fence|..])
    else if s == [] then []
    else [s[0]] + RemoveFences(s[1..])
  }

  /** The cleaned reply handed to the JSON decoder. */
  function StripFences(reply: string): (r: string)
    ensures |r| <= |reply|
    ensures r != [] ==> !IsSpace(r[0]) && !IsSpace(r[|r| - 1])
  {
    Strip(RemoveFences(reply))
  }

  /** A character other than a backtick is copied and the scan moves on. */
  lemma RemoveFencesPlainHead(s: string)
    requires s != [] && s[0] != '`'
    ensures RemoveFences(s) == [s[0]] + RemoveFences(s[1..])
  {
    assert !(Fence <= s) && !(JsonFence <= s) by {
      assert Fence[0] == '`' && JsonFence[0] == '`';
    }
  }

  /** A backtick-free prefix passes through the substitution unchanged. */
  lemma {:induction false} RemoveFencesPlainPrefix(j: string, t: string)
    requires NoBacktick(j)
    ensures RemoveFences(j + t) == j + RemoveFences(t)
    decreases |j|
  {
    if j != [] {
      assert (j + t)[0] == j[0] && (j + t)[1..] == j[1..] + t;
      RemoveFencesPlainHead(j + t);
      RemoveFencesPlainPrefix(j[1..], t);
      assert j == [j[0]] + j[1..];
    } else {
      assert j + t == t;
    }
  }

  /** On backtick-free input the substitution is the identity, so fence stripping is a plain `strip()`. */
  lemma RemoveFencesPlain(s: string)
    requires NoBacktick(s)
    ensures RemoveFences(s) == s
    ensures StripFences(s) == Strip(s)
  {
    RemoveFencesPlainPrefix(s, []);
    assert s + [] == s;
  }

  /** An opening JSON fence vanishes. */
  lemma RemoveJsonFence(t: string)
    ensures RemoveFences(JsonFence + t) == RemoveFences(t)
  {
    var s := JsonFence + t;
    assert JsonFence <= s;
    assert s[|JsonFence|..] == t;
  }

  /** A bare fence not followed by the `json` tag and newline vanishes. */
  lemma RemoveBareFence(t: string)
    requires !(JsonTag <= t)
    ensures RemoveFences(Fence + t) == RemoveFences(t)
  {
    var s := Fence + t;
    assert !(JsonFence <= s);
    assert Fence <= s;
    assert s[|Fence|..] == t;
  }

  /** A bare fence followed by backtick-free text that does not start with the `json` tag leaves just that text. */
  lemma RemoveClosingFence(post: string)
    requires NoBacktick(post) && !(JsonTag <= post)
    ensures RemoveFences(Fence + post) == post
  {
    RemoveBareFence(post);
    RemoveFencesPlain(post);
  }

  /** An opening JSON fence, a backtick-free body and a closing fence leave the body and what follows. */
  lemma RemoveFencedBody(body: string, post: string)
    requires NoBacktick(body) && NoBacktick(post) && !(JsonTag <= post)
    ensures RemoveFences(JsonFence + (body + (Fence + post))) == body + post
  {
    RemoveJsonFence(body + (Fence + post));
    RemoveFencesPlainPrefix(body, Fence + post);
    RemoveClosingFence(post);
  }

  /** The substitution takes both fences out of a reply holding one fenced block with backtick-free text around it. */
  lemma RemoveFencesOfFencedBlock(pre: string, body: string, post: string)
    requires NoBacktick(pre) && NoBacktick(body) && NoBacktick(post)
    requires !(JsonTag <= post)
    ensures RemoveFences(pre + JsonFence + body + Fence + post) == pre + body + post
  {
    var rest := JsonFence + (body + (Fence + post));
    RemoveFencesPlainPrefix(pre, rest);
    RemoveFencedBody(body, post);
    assert pre + JsonFence + body + Fence + post == pre + rest;
    assert pre + (body + post) == pre + body + post;
  }

  /**
    A reply holding one fenced JSON block, with backtick-free text around and
    inside it, is cleaned to the stripped text with both fences taken out.
  */
  lemma StripFencesOfFencedBlock(pre: string, body: string, post: string)
    requires NoBacktick(pre) && NoBacktick(body) && NoBacktick(post)
    requires !(JsonTag <= post)
    ensures StripFences(pre + JsonFence + body + Fence + post) == Strip(pre + body + post)
  {
    RemoveFencesOfFencedBlock(pre, body, post);
  }

  /** True when `s` does not start with two backticks. */
  predicate NoDoubleStart(s: string)
  {
    !(|s| >= 2 && s[0] == '`' && s[1] == '`')
  }

  /** Whatever the input, the cleaned text starts with two backticks only if the input did. */
  lemma RemoveFencesKeepsNoDoubleStart(t: string)
    requires NoDoubleStart(t)
    ensures NoDoubleStart(RemoveFences(t))
  {
    if t != [] {
      if t[0] != '`' {
        RemoveFencesPlainHead(t);
      } else {
        assert !(Fence <= t) && !(JsonFence <= t);
        if |t| > 1 {
          RemoveFencesPlainHead(t[1..]);
        }
      }
    }
  }

  /** True when `s` holds no three consecutive backticks. */
  predicate NoFence(s: string)
  {
    forall i | 0 <= i < |s| - 2 :: !(s[i] == '`' && s[i + 1] == '`' && s[i + 2] == '`')
  }

  /** The substitution leaves no fence behind, even where removed fences were adjacent to backticks. */
  lemma {:induction false} RemoveFencesLeavesNoFence(s: string)
    ensures NoFence(RemoveFences(s))
    decreases |s|
  {
    if JsonFence <= s {
      RemoveFencesLeavesNoFence(s[|JsonFence|..]);
    } else if Fence <= s {
      RemoveFencesLeavesNoFence(s[|Fence|..]);
    } else if s != [] {
      var rest := RemoveFences(s[1..]);
      var r := [s[0]] + rest;
      RemoveFencesLeavesNoFence(s[1..]);
      if s[0] == '`' {
        assert NoDoubleStart(s[1..]);
        RemoveFencesKeepsNoDoubleStart(s[1..]);
      }
      forall i | 0 <= i < |r| - 2
        ensures !(r[i] == '`' && r[i + 1] == '`' && r[i + 2] == '`')
      {
        if i > 0 {
          assert r[i] == rest[i - 1] && r[i + 1] == rest[i] && r[i + 2] == rest[i + 1];
        }
      }
    }
  }
}
