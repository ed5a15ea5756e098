/** strtok with its hidden cursor made explicit, and the token sequence it walks through. */
module Tokenizer {
  import opened Wrappers

  /** The separators the command parser hands to strtok: space, tab and newline. */
  const Blanks: set<char> := {' ', '\t', '\n'}

  /** The first index at or after `pos` that holds no delimiter, or |s| (strspn). */
  function SkipDelims(s: string, pos: nat, delims: set<char>): (k: nat)
    requires pos <= |s|
    ensures pos <= k <= |s|
    ensures forall i :: pos <= i < k ==> s[i] in delims
    ensures k < |s| ==> s[k] !in delims
    decreases |s| - pos
  {
    if pos == |s| || s[pos] !in delims then pos else SkipDelims(s, pos + 1, delims)
  }

  /** The first index at or after `pos` that holds a delimiter, or |s| (strpbrk). */
  function FindDelim(s: string, pos: nat, delims: set<char>): (k: nat)
    requires pos <= |s|
    ensures pos <= k <= |s|
    ensures forall i :: pos <= i < k ==> s[i] !in delims
    ensures k < |s| ==> s[k] in delims
    decreases |s| - pos
  {
    if pos == |s| || s[pos] in delims then pos else FindDelim(s, pos + 1, delims)
  }

  /**
   * One call of strtok on the string `s` whose saved cursor is `pos`: the token
   * (None for NULL) and the new cursor.  The delimiter that ends a token is
   * overwritten by NUL and the cursor moves past it; at the end of the string
   * the cursor stays at the end, so every later call also yields None.
   */
  function Strtok(s: string, pos: nat, delims: set<char>): (r: (Option<string>, nat))
    requires pos <= |s|
    ensures pos <= r.1 <= |s|
    ensures r.0.None? ==> r.1 == |s| && forall i :: pos <= i < |s| ==> s[i] in delims
    ensures r.0.Some? ==> pos < r.1 && r.0.value != [] && |r.0.value| <= |s| - pos
    ensures r.0.Some? ==> forall i :: 0 <= i < |r.0.value| ==> r.0.value[i] !in delims
  {
    var start := SkipDelims(s, pos, delims);
    if start == |s| then (None, |s|)
    else
      var end := FindDelim(s, start, delims);
      (Some(s[start..end]), if end < |s| then end + 1 else |s|)
  }

  /** The length of the longest prefix of `s` that holds no delimiter. */
  function Span(s: string, delims: set<char>): (n: nat)
    ensures n <= |s|
    ensures forall i :: 0 <= i < n ==> s[i] !in delims
    ensures n < |s| ==> s[n] in delims
  {
    if s == [] || s[0] in delims then 0 else 1 + Span(s[1..], delims)
  }

  /** The maximal delimiter-free runs of `s`, left to right: runs of delimiters produce no empty token. */
  function Tokens(s: string, delims: set<char>): seq<string>
    decreases |s|
  {
    if s == [] then []
    else if s[0] in delims then Tokens(s[1..], delims)
    else
      var n := Span(s, delims);
      [s[..n]] + Tokens(s[n..], delims)
  }

  /** The tokens a strtok loop has still to see: the current one (if any) and those after the cursor. */
  function Pending(s: string, token: Option<string>, pos: nat, delims: set<char>): seq<string>
    requires pos <= |s|
  {
    (if token.Some? then [token.value] else []) + Tokens(s[pos..], delims)
  }

  /** Every token is non-empty and holds no delimiter. */
  lemma {:induction false} TokensWellFormed(s: string, delims: set<char>)
    ensures forall k :: 0 <= k < |Tokens(s, delims)| ==> Tokens(s, delims)[k] != []
    ensures forall k, i :: 0 <= k < |Tokens(s, delims)| && 0 <= i < |Tokens(s, delims)[k]| ==> Tokens(s, delims)[k][i] !in delims
    decreases |s|
  {
    if s == [] {
    } else if s[0] in delims {
      TokensWellFormed(s[1..], delims);
    } else {
      var n := Span(s, delims);
      TokensWellFormed(s[n..], delims);
      assert Tokens(s, delims) == [s[..n]] + Tokens(s[n..], delims);
    }
  }

  /** Delimiters before a token contribute nothing. */
  lemma {:induction false} SkipTokens(s: string, pos: nat, k: nat, delims: set<char>)
    requires pos <= k <= |s|
    requires forall i :: pos <= i < k ==> s[i] in delims
    ensures Tokens(s[pos..], delims) == Tokens(s[k..], delims)
    decreases k - pos
  {
    if pos < k {
      assert s[pos..][0] == s[pos] && s[pos..][1..] == s[pos + 1..];
      SkipTokens(s, pos + 1, k, delims);
    }
  }

  /** A string made only of delimiters has no token. */
  lemma AllDelimsNoTokens(s: string, delims: set<char>)
    requires forall i :: 0 <= i < |s| ==> s[i] in delims
    ensures Tokens(s, delims) == []
  {
    SkipTokens(s, 0, |s|, delims);
    assert s[0..] == s;
  }

  /** The run found by FindDelim from a non-delimiter is the Span of the suffix it starts. */
  lemma SpanAt(s: string, start: nat, delims: set<char>)
    requires start < |s| && s[start] !in delims
    ensures Span(s[start..], delims) == FindDelim(s, start, delims) - start
  {
    var n, m := Span(s[start..], delims), FindDelim(s, start, delims) - start;
    assert n == m;
  }

  /**
   * One strtok call splits the pending tokens into the one it returns and those after
   * its new cursor: a strtok loop visits exactly Tokens(s), in order.
   */
  lemma StrtokTokens(s: string, pos: nat, delims: set<char>)
    requires pos <= |s|
    ensures Tokens(s[pos..], delims) == Pending(s, Strtok(s, pos, delims).0, Strtok(s, pos, delims).1, delims)
  {
    var start := SkipDelims(s, pos, delims);
    SkipTokens(s, pos, start, delims);
    if start < |s| {
      var end := FindDelim(s, start, delims);
      TokenAt(s, start, delims);
      if end < |s| {
        SkipTokens(s, end, end + 1, delims);
      }
    }
  }

  /** The tokens from a non-delimiter: the run up to the next delimiter, then those from it on. */
  lemma TokenAt(s: string, start: nat, delims: set<char>)
    requires start < |s| && s[start] !in delims
    ensures Tokens(s[start..], delims) == [s[start..FindDelim(s, start, delims)]] + Tokens(s[FindDelim(s, start, delims)..], delims)
  {
    var end := FindDelim(s, start, delims);
    var t := s[start..];
    var n := Span(t, delims);
    SpanAt(s, start, delims);
    assert t[0] == s[start];
    TokensHead(t, delims);
    assert t[..n] == s[start..end];
    assert t[n..] == s[end..];
  }

  /** A string that starts with a non-delimiter starts with the token Span measures. */
  lemma TokensHead(t: string, delims: set<char>)
    requires t != [] && t[0] !in delims
    ensures Tokens(t, delims) == [t[..Span(t, delims)]] + Tokens(t[Span(t, delims)..], delims)
  {
  }

  /** Tokens of a concatenation whose second part starts at a delimiter are the tokens of each part. */
  lemma {:induction false} TokensAppend(a: string, b: string, delims: set<char>)
    requires b == [] || b[0] in delims
    ensures Tokens(a + b, delims) == Tokens(a, delims) + Tokens(b, delims)
    decreases |a|
  {
    if a == [] {
      assert a + b == b;
    } else if a[0] in delims {
      assert (a + b)[1..] == a[1..] + b;
      TokensAppend(a[1..], b, delims);
    } else {
      var m := Span(a, delims);
      var n := Span(a + b, delims);
      assert n == m by {
        if m < |a| {
          assert (a + b)[m] == a[m];
        } else if b != [] {
          assert (a + b)[m] == b[0];
        }
      }
      assert (a + b)[..n] == a[..m];
      assert (a + b)[n..] == a[m..] + b;
      TokensAppend(a[m..], b, delims);
    }
  }

  /** Span is the only length whose prefix holds no delimiter and that stops at one or at the end. */
  lemma SpanUnique(s: string, delims: set<char>, m: nat)
    requires m <= |s| && forall i :: 0 <= i < m ==> s[i] !in delims
    requires m < |s| ==> s[m] in delims
    ensures Span(s, delims) == m
  {
  }

  /**
   * A character `c` that is no delimiter, appended to `x`, joins the last token of `x`
   * when `x` ends inside a token, and forms a token of its own otherwise.
   */
  lemma {:induction false} TokensTrailing(x: string, c: char, delims: set<char>)
    requires c !in delims
    ensures x != [] && x[|x| - 1] !in delims ==>
      var ts := Tokens(x, delims);
      ts != [] && Tokens(x + [c], delims) == ts[..|ts| - 1] + [ts[|ts| - 1] + [c]]
    ensures x == [] || x[|x| - 1] in delims ==> Tokens(x + [c], delims) == Tokens(x, delims) + [[c]]
    decreases |x|
  {
    var s := x + [c];
    if x == [] {
      TrailingAlone(c, delims);
      assert s == [c];
    } else if x[0] in delims {
      assert s[1..] == x[1..] + [c];
      TokensTrailing(x[1..], c, delims);
      if |x| > 1 {
        assert x[1..][|x| - 2] == x[|x| - 1];
      }
    } else {
      var n := Span(x, delims);
      if n < |x| {
        TokensTrailing(x[n..], c, delims);
        TrailingAfterRun(x, c, delims, n);
      } else {
        TrailingRun(x, c, delims);
      }
    }
  }

  /** The tokens of a single non-delimiter character. */
  lemma TrailingAlone(c: char, delims: set<char>)
    requires c !in delims
    ensures Tokens([c], delims) == [[c]]
  {
    SpanUnique([c], delims, 1);
    assert [c][..1] == [c] && [c][1..] == [];
  }

  /** `x` is one run of non-delimiters: `c` extends it. */
  lemma TrailingRun(x: string, c: char, delims: set<char>)
    requires x != [] && c !in delims && forall i :: 0 <= i < |x| ==> x[i] !in delims
    ensures Tokens(x, delims) == [x] && Tokens(x + [c], delims) == [x + [c]]
  {
    var s := x + [c];
    SpanUnique(x, delims, |x|);
    SpanUnique(s, delims, |s|);
    TokensHead(x, delims);
    TokensHead(s, delims);
    assert x[..|x|] == x && x[|x|..] == [];
    assert s[..|s|] == s && s[|s|..] == [];
  }

  /** `x` starts with a run that a delimiter ends: `c` goes with what follows that run. */
  lemma TrailingAfterRun(x: string, c: char, delims: set<char>, n: nat)
    requires c !in delims && x != [] && x[0] !in delims && n == Span(x, delims) && n < |x|
    requires TrailingHolds(x[n..], c, delims)
    ensures TrailingHolds(x, c, delims)
  {
    RunSplit(x, c, delims, n);
    assert x[n..][|x| - n - 1] == x[|x| - 1];
    var ts := Tokens(x[n..], delims);
    if x[|x| - 1] !in delims {
      ConsLast(x[..n], ts, Tokens(x[n..] + [c], delims), c);
    } else {
      SeqAssoc([x[..n]], ts, [[c]]);
    }
  }

  /** The first run of `x` is the first token both of `x` and of `x + [c]`. */
  lemma RunSplit(x: string, c: char, delims: set<char>, n: nat)
    requires c !in delims && x != [] && x[0] !in delims && n == Span(x, delims) && n < |x|
    ensures Tokens(x, delims) == [x[..n]] + Tokens(x[n..], delims)
    ensures Tokens(x + [c], delims) == [x[..n]] + Tokens(x[n..] + [c], delims)
  {
    var s := x + [c];
    SpanUnique(s, delims, n);
    assert s[..n] == x[..n] && s[n..] == x[n..] + [c];
    TokensHead(x, delims);
    TokensHead(s, delims);
  }

  /** Putting a token in front keeps "the last token extended by `c`". */
  lemma ConsLast(h: string, ts: seq<string>, us: seq<string>, c: char)
    requires ts != [] && us == ts[..|ts| - 1] + [ts[|ts| - 1] + [c]]
    ensures ([h] + ts)[..|ts|] + [([h] + ts)[|ts|] + [c]] == [h] + us
  {
    assert ([h] + ts)[..|ts|] == [h] + ts[..|ts| - 1];
  }

  /** The two ensures of TokensTrailing, as a predicate. */
  ghost predicate TrailingHolds(x: string, c: char, delims: set<char>) {
    (x != [] && x[|x| - 1] !in delims ==>
      var ts := Tokens(x, delims);
      ts != [] && Tokens(x + [c], delims) == ts[..|ts| - 1] + [ts[|ts| - 1] + [c]]) &&
    (x == [] || x[|x| - 1] in delims ==> Tokens(x + [c], delims) == Tokens(x, delims) + [[c]])
  }

  lemma SeqAssoc<T>(a: seq<T>, b: seq<T>, c: seq<T>)
    ensures (a + b) + c == a + (b + c)
  {
  }
}
