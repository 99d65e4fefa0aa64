/** The few java.lang.String operations the runner relies on. */
module JavaString {

  /** String.startsWith */
  predicate StartsWith(s: string, prefix: string) {
    |prefix| <= |s| && s[..|prefix|] == prefix
  }

  /** String.endsWith */
  predicate EndsWith(s: string, suffix: string) {
    |suffix| <= |s| && s[|s| - |suffix|..] == suffix
  }

  /** String.trim treats every character at or below U+0020 as white space. */
  predicate IsSpace(c: char) {
    c <= ' '
  }

  predicate AllSpace(s: string) {
    forall k :: 0 <= k < |s| ==> IsSpace(s[k])
  }

  /** Neither end of `s` is white space. */
  predicate NoOuterSpace(s: string) {
    |s| == 0 || (!IsSpace(s[0]) && !IsSpace(s[|s| - 1]))
  }

  /** Drops the leading white space of `s`. */
  function TrimLeft(s: string): (r: string)
    ensures |r| <= |s|
    ensures |r| == 0 || !IsSpace(r[0])
    decreases |s|
  {
    if |s| > 0 && IsSpace(s[0]) then TrimLeft(s[1..]) else s
  }

  /** Drops the trailing white space of `s`. */
  function TrimRight(s: string): (r: string)
    ensures |r| <= |s| && (|r| > 0 ==> r[0] == s[0])
    ensures |r| == 0 || !IsSpace(r[|r| - 1])
    decreases |s|
  {
    if |s| > 0 && IsSpace(s[|s| - 1]) then TrimRight(s[..|s| - 1]) else s
  }

  /** String.trim: the result neither starts nor ends with white space. */
  function Trim(s: string): (r: string)
    ensures NoOuterSpace(r) && |r| <= |s|
  {
    TrimRight(TrimLeft(s))
  }

  /** Trim only removes white space: `s` is white space, then Trim(s),
      then white space. */
  lemma TrimSplits(s: string) returns (pre: string, post: string)
    ensures AllSpace(pre) && AllSpace(post)
    ensures s == pre + Trim(s) + post
  {
    pre := LeftSplit(s);
    post := RightSplit(TrimLeft(s));
    Associate(pre, Trim(s), post);
  }

  lemma Associate(a: string, b: string, c: string)
    ensures a + (b + c) == a + b + c
  {
  }

  /** TrimLeft drops white space only. */
  lemma {:induction false} LeftSplit(s: string) returns (pre: string)
    ensures AllSpace(pre) && s == pre + TrimLeft(s)
    decreases |s|
  {
    if |s| > 0 && IsSpace(s[0]) {
      var tail := LeftSplit(s[1..]);
      pre := [s[0]] + tail;
      assert s == [s[0]] + s[1..];
      Associate([s[0]], tail, TrimLeft(s[1..]));
    } else {
      pre := "";
      assert s == "" + s;
    }
  }

  /** TrimRight drops white space only. */
  lemma {:induction false} RightSplit(s: string) returns (post: string)
    ensures AllSpace(post) && s == TrimRight(s) + post
    decreases |s|
  {
    if |s| > 0 && IsSpace(s[|s| - 1]) {
      var init := s[..|s| - 1];
      var head := RightSplit(init);
      post := head + [s[|s| - 1]];
      assert s == init + [s[|s| - 1]];
      Associate(TrimRight(init), head, [s[|s| - 1]]);
    } else {
      post := "";
      assert s == s + "";
    }
  }

  /** Trim leaves a string without outer white space unchanged. */
  lemma TrimKeepsTrimmed(s: string)
    requires NoOuterSpace(s)
    ensures Trim(s) == s
  {
  }

  /** Trimming twice is trimming once. */
  lemma TrimIdempotent(s: string)
    ensures Trim(Trim(s)) == Trim(s)
  {
    TrimKeepsTrimmed(Trim(s));
  }

  /** Trim removes exactly the outer white space: any decomposition into
      white space, a core without outer white space, and white space
      yields that core. */
  lemma TrimExtractsCore(pre: string, core: string, post: string)
    requires AllSpace(pre) && AllSpace(post) && NoOuterSpace(core)
    ensures Trim(pre + core + post) == core
  {
    if |core| == 0 {
      assert pre + core + post == (pre + post) + "";
      TrimLeftDropsSpaces(pre + post, "");
    } else {
      assert pre + core + post == pre + (core + post);
      TrimLeftDropsSpaces(pre, core + post);
      TrimRightDropsSpaces(core, post);
    }
  }

  lemma {:induction false} TrimLeftDropsSpaces(pre: string, rest: string)
    requires AllSpace(pre)
    requires |rest| == 0 || !IsSpace(rest[0])
    ensures TrimLeft(pre + rest) == rest
    decreases |pre|
  {
    if |pre| > 0 {
      assert (pre + rest)[1..] == pre[1..] + rest;
      TrimLeftDropsSpaces(pre[1..], rest);
    }
  }

  lemma {:induction false} TrimRightDropsSpaces(rest: string, post: string)
    requires AllSpace(post)
    requires |rest| == 0 || !IsSpace(rest[|rest| - 1])
    ensures TrimRight(rest + post) == rest
    decreases |post|
  {
    if |post| > 0 {
      var s := rest + post;
      assert s[..|s| - 1] == rest + post[..|post| - 1];
      TrimRightDropsSpaces(rest, post[..|post| - 1]);
    }
  }
}
