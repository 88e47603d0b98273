/** The two string operations the line-echo handler applies to a request:
    `strings.TrimSpace` and the lower-casing used by the `quit` test. */
module Text {

  /** `unicode.IsSpace`: the ASCII white-space characters, U+0085, U+00A0
      and the other characters of Unicode's White_Space property. */
  predicate IsSpace(c: char)
  {
    c == ' ' || c == '\t' || c == '\n' || c == '\U{000B}' || c == '\U{000C}' || c == '\r'
    || c == '\U{0085}' || c == '\U{00A0}' || c == '\U{1680}'
    || ('\U{2000}' <= c <= '\U{200A}')
    || c == '\U{2028}' || c == '\U{2029}' || c == '\U{202F}' || c == '\U{205F}' || c == '\U{3000}'
  }

  predicate AllSpace(s: string)
  {
    forall i | 0 <= i < |s| :: IsSpace(s[i])
  }

  /** The string with its leading white space removed. */
  function TrimLeft(s: string): (r: string)
  {
    if s != [] && IsSpace(s[0]) then TrimLeft(s[1..]) else s
  }

  /** The string with its trailing white space removed. */
  function TrimRight(s: string): (r: string)
  {
    if s != [] && IsSpace(s[|s| - 1]) then TrimRight(s[..|s| - 1]) else s
  }

  /** `strings.TrimSpace`: leading and trailing white space removed. */
  function TrimSpace(s: string): (r: string)
  {
    TrimRight(TrimLeft(s))
  }

  /** `TrimLeft` drops a prefix made of white space only, and what is left
      does not start with white space. */
  lemma {:induction false} TrimLeftSpec(s: string)
    ensures var r := TrimLeft(s);
      |r| <= |s| && r == s[|s| - |r|..] && AllSpace(s[..|s| - |r|])
      && (r != [] ==> !IsSpace(r[0]))
  {
    if s != [] && IsSpace(s[0]) {
      TrimLeftSpec(s[1..]);
      var r := TrimLeft(s);
      assert s[..|s| - |r|] == [s[0]] + s[1..][..|s| - 1 - |r|];
    }
  }

  /** `TrimRight` drops a suffix made of white space only, and what is left
      does not end with white space. */
  lemma {:induction false} TrimRightSpec(s: string)
    ensures var r := TrimRight(s);
      |r| <= |s| && r == s[..|r|] && AllSpace(s[|r|..])
      && (r != [] ==> !IsSpace(r[|r| - 1]))
  {
    if s != [] && IsSpace(s[|s| - 1]) {
      TrimRightSpec(s[..|s| - 1]);
      var r := TrimRight(s);
      assert s[|r|..] == s[..|s| - 1][|r|..] + [s[|s| - 1]];
    }
  }

  /** The result of `TrimSpace` is a slice of its input that neither starts nor
      ends with white space, and the input around it is white space only. */
  lemma TrimSpaceSpec(s: string)
    ensures var r := TrimSpace(s);
      && (r != [] ==> !IsSpace(r[0]) && !IsSpace(r[|r| - 1]))
      && |r| <= |TrimLeft(s)| <= |s|
      && var a := |s| - |TrimLeft(s)|;
      && a + |r| <= |s| && s[a..a + |r|] == r && AllSpace(s[..a]) && AllSpace(s[a + |r|..])
  {
    var l := TrimLeft(s);
    TrimLeftSpec(s);
    TrimRightSpec(l);
    var r := TrimRight(l);
    var a := |s| - |l|;
    assert TrimSpace(s) == r;
    assert l == s[a..];
    assert s[a..a + |r|] == l[..|r|];
    assert s[a + |r|..] == l[|r|..];
  }

  /** Trimming is determined by the decomposition: white space, a core that
      neither starts nor ends with white space, white space. */
  lemma {:induction false} TrimSpaceOf(pre: string, core: string, post: string)
    requires AllSpace(pre) && AllSpace(post)
    requires core != [] ==> !IsSpace(core[0]) && !IsSpace(core[|core| - 1])
    ensures TrimSpace(pre + core + post) == core
  {
    var s := pre + core + post;
    if core == [] {
      assert s == pre + post;
      assert AllSpace(s) by {
        forall i | 0 <= i < |s| ensures IsSpace(s[i]) {
          if i >= |pre| { assert s[i] == post[i - |pre|]; }
        }
      }
      TrimLeftAllSpace(s);
    } else {
      assert s == pre + (core + post);
      TrimLeftOf(pre, core + post);
      TrimRightOf(core, post);
    }
  }

  lemma {:induction false} TrimLeftAllSpace(s: string)
    requires AllSpace(s)
    ensures TrimLeft(s) == []
  {
    if s != [] {
      TrimLeftAllSpace(s[1..]);
    }
  }

  lemma {:induction false} TrimLeftOf(pre: string, rest: string)
    requires AllSpace(pre)
    requires rest != [] ==> !IsSpace(rest[0])
    ensures TrimLeft(pre + rest) == (if rest == [] then TrimLeft(pre) else rest)
  {
    if pre != [] {
      assert (pre + rest)[1..] == pre[1..] + rest;
      TrimLeftOf(pre[1..], rest);
      if rest == [] {
        assert pre + rest == pre;
      }
    } else {
      assert pre + rest == rest;
    }
  }

  lemma {:induction false} TrimRightOf(core: string, post: string)
    requires AllSpace(post)
    requires core != [] ==> !IsSpace(core[|core| - 1])
    ensures TrimRight(core + post) == core
  {
    if post != [] {
      var s := core + post;
      assert s[..|s| - 1] == core + post[..|post| - 1];
      TrimRightOf(core, post[..|post| - 1]);
    } else {
      assert core + post == core;
    }
  }

  /** Trimming twice is trimming once. */
  lemma TrimSpaceIdempotent(s: string)
    ensures TrimSpace(TrimSpace(s)) == TrimSpace(s)
  {
    var r := TrimSpace(s);
    TrimSpaceSpec(s);
    assert r == [] + r + [];
    TrimSpaceOf([], r, []);
  }

  /** `unicode.ToLower` on every character whose lower case is an ASCII
      character: the ASCII capitals, U+0130 (capital I with dot above, which
      lowers to `i`) and U+212A (Kelvin sign, which lowers to `k`). Every
      other character is left alone; its lower case is never ASCII. */
  function ToLowerChar(c: char): (l: char)
  {
    if 'A' <= c <= 'Z' then (c as int + 32) as char
    else if c == '\U{0130}' then 'i'
    else if c == '\U{212A}' then 'k'
    else c
  }

  /** `strings.ToLower`, character by character. */
  function ToLower(s: string): (r: string)
    ensures |r| == |s|
    ensures forall i | 0 <= i < |s| :: r[i] == ToLowerChar(s[i])
  {
    if s == [] then [] else [ToLowerChar(s[0])] + ToLower(s[1..])
  }

  /** The handler's `strings.ToLower(message) == "quit"` test. */
  predicate IsQuit(msg: string)
  {
    ToLower(msg) == "quit"
  }

  /** `quit` is recognised in any mixture of upper and lower case letters,
      with U+0130 also standing for the `i`, and in nothing else. */
  lemma IsQuitExactly(msg: string)
    ensures IsQuit(msg) <==>
      |msg| == 4 && msg[0] in "qQ" && msg[1] in "uU" && msg[2] in "iI\U{0130}" && msg[3] in "tT"
  {
  }
}
