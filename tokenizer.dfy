/**
  How smallsh splits an input line into words: repeated calls to strtok with
  the delimiter set " \n" (space and newline). strtok skips any number of
  delimiters and returns the maximal run of other characters that follows, so
  no token is ever empty.
 */
module Tokenizer {

  /** The delimiter set passed to every strtok call of the parser. */
  predicate IsDelim(c: char) {
    c == ' ' || c == '\n'
  }

  /** What strtok can return: a non-empty string without delimiters. */
  predicate IsToken(t: string) {
    |t| > 0 && forall i :: 0 <= i < |t| ==> !IsDelim(t[i])
  }

  /** The length of the leading run of non-delimiter characters of `s`. */
  function RunLength(s: string): (n: nat)
    ensures n <= |s|
    ensures forall i :: 0 <= i < n ==> !IsDelim(s[i])
    ensures n < |s| ==> IsDelim(s[n])
  {
    if s == [] || IsDelim(s[0]) then 0 else 1 + RunLength(s[1..])
  }

  /** The tokens strtok yields on `s`, in order. */
  function Tokens(s: string): (ts: seq<string>)
    ensures forall i :: 0 <= i < |ts| ==> IsToken(ts[i])
    decreases |s|
  {
    if s == [] then []
    else if IsDelim(s[0]) then Tokens(s[1..])
    else
      var n := RunLength(s);
      assert n > 0;
      [s[..n]] + Tokens(s[n..])
  }

  /** `s` with every delimiter removed. */
  function Squeeze(s: string): string {
    if s == [] then []
    else if IsDelim(s[0]) then Squeeze(s[1..])
    else [s[0]] + Squeeze(s[1..])
  }

  function Concat(ts: seq<string>): string {
    if ts == [] then [] else ts[0] + Concat(ts[1..])
  }

  /** Words separated by single spaces. */
  function Join(ts: seq<string>): string {
    if |ts| == 0 then ""
    else if |ts| == 1 then ts[0]
    else ts[0] + " " + Join(ts[1..])
  }

  lemma {:induction false} SqueezeAppend(a: string, b: string)
    ensures Squeeze(a + b) == Squeeze(a) + Squeeze(b)
  {
    if a == [] {
      assert a + b == b;
    } else {
      assert (a + b)[1..] == a[1..] + b;
      SqueezeAppend(a[1..], b);
    }
  }

  lemma {:induction false} SqueezeRun(s: string, n: nat)
    requires n <= |s|
    requires forall i :: 0 <= i < n ==> !IsDelim(s[i])
    ensures Squeeze(s[..n]) == s[..n]
  {
    if n > 0 {
      assert s[..n][1..] == s[1..][..n - 1];
      SqueezeRun(s[1..], n - 1);
    }
  }

  /**
    Tokenising loses exactly the delimiters: the tokens, put back together,
    are the line with its spaces and newlines removed.
   */
  lemma {:induction false} TokensLoseOnlyDelimiters(s: string)
    ensures Concat(Tokens(s)) == Squeeze(s)
    decreases |s|
  {
    if s == [] {
    } else if IsDelim(s[0]) {
      TokensLoseOnlyDelimiters(s[1..]);
    } else {
      var n := RunLength(s);
      var ts := Tokens(s);
      assert ts == [s[..n]] + Tokens(s[n..]);
      assert ts[1..] == Tokens(s[n..]);
      TokensLoseOnlyDelimiters(s[n..]);
      assert Concat(ts) == s[..n] + Squeeze(s[n..]);
      SqueezeRun(s, n);
      assert s == s[..n] + s[n..];
      SqueezeAppend(s[..n], s[n..]);
    }
  }

  lemma {:induction false} RunLengthExtend(a: string, b: string)
    requires RunLength(a) < |a| || (b != [] && IsDelim(b[0]))
    ensures RunLength(a + b) == RunLength(a)
  {
    if a == [] {
      assert a + b == b;
    } else if !IsDelim(a[0]) {
      assert (a + b)[1..] == a[1..] + b;
      RunLengthExtend(a[1..], b);
    }
  }

  /** A delimiter anywhere splits the line: the tokens on each side are unaffected by the other. */
  lemma {:induction false} TokensSplit(a: string, d: char, b: string)
    requires IsDelim(d)
    ensures Tokens(a + [d] + b) == Tokens(a) + Tokens(b)
    decreases |a|
  {
    var s := a + [d] + b;
    if a == [] {
      assert s[1..] == b;
    } else if IsDelim(a[0]) {
      assert s[1..] == a[1..] + [d] + b;
      TokensSplit(a[1..], d, b);
    } else {
      var n := RunLength(a);
      assert RunLength(s) == n by {
        assert s == a + ([d] + b);
        RunLengthExtend(a, [d] + b);
      }
      assert s[..n] == a[..n];
      assert s[n..] == a[n..] + [d] + b;
      TokensSplit(a[n..], d, b);
    }
  }

  /** A string that is already one token tokenises to itself. */
  lemma TokensOfToken(t: string)
    requires IsToken(t)
    ensures Tokens(t) == [t]
  {
    assert RunLength(t) == |t|;
    assert t[..|t|] == t;
  }

  /** Joining tokens with spaces and tokenising again gives the same tokens back. */
  lemma {:induction false} TokensOfJoin(ts: seq<string>)
    requires forall i :: 0 <= i < |ts| ==> IsToken(ts[i])
    ensures Tokens(Join(ts)) == ts
  {
    if |ts| == 0 {
    } else if |ts| == 1 {
      TokensOfToken(ts[0]);
    } else {
      TokensOfToken(ts[0]);
      TokensOfJoin(ts[1..]);
      TokensSplit(ts[0], ' ', Join(ts[1..]));
      assert ts[0] + " " + Join(ts[1..]) == ts[0] + [' '] + Join(ts[1..]);
      assert ts == [ts[0]] + ts[1..];
    }
  }
}
