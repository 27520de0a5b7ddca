/** Splitting the solver's answer into move tokens (main.js:200): the
    answer is trimmed at both ends and then cut at every run of white space. */
module Tokens {

  /** JavaScript's white-space class: the characters `\s` matches and `trim`
      removes (white space and line terminators). */
  predicate IsSpace(c: char)
  {
    || c == ' ' || c == '\t' || c == '\n' || c == '\r' || c == '\U{000B}' || c == '\U{000C}'
    || c == '\U{00A0}' || c == '\U{1680}' || ('\U{2000}' <= c <= '\U{200A}')
    || c == '\U{2028}' || c == '\U{2029}' || c == '\U{202F}' || c == '\U{205F}'
    || c == '\U{3000}' || c == '\U{FEFF}'
  }

  /** A non-empty run of characters none of which is white space. */
  predicate IsToken(t: string)
  {
    |t| > 0 && forall i :: 0 <= i < |t| ==> !IsSpace(t[i])
  }

  predicate NoSpace(t: string)
  {
    forall i :: 0 <= i < |t| ==> !IsSpace(t[i])
  }

  /** Drops the leading white space: what is left is a suffix of `s` that is
      empty or starts with a non-space, and everything dropped is space. */
  function TrimStart(s: string): (r: string)
    ensures |r| <= |s| && r == s[|s| - |r|..]
    ensures |r| > 0 ==> !IsSpace(r[0])
    ensures forall i :: 0 <= i < |s| - |r| ==> IsSpace(s[i])
  {
    if |s| > 0 && IsSpace(s[0]) then TrimStart(s[1..]) else s
  }

  /** Drops the trailing white space: what is left is a prefix of `s` that is
      empty or ends with a non-space, and everything dropped is space. */
  function TrimEnd(s: string): (r: string)
    ensures |r| <= |s| && r == s[..|r|]
    ensures |r| > 0 ==> !IsSpace(r[|r| - 1])
    ensures forall i :: |r| <= i < |s| ==> IsSpace(s[i])
  {
    if |s| > 0 && IsSpace(s[|s| - 1]) then TrimEnd(s[..|s| - 1]) else s
  }

  /** JavaScript's `trim`: the input without its leading and trailing white
      space. The result is empty exactly when the input is all white space,
      and otherwise starts and ends with a non-space. */
  function Trim(s: string): (r: string)
    ensures |r| <= |s|
    ensures |r| > 0 ==> !IsSpace(r[0]) && !IsSpace(r[|r| - 1])
    ensures |r| == 0 <==> forall i :: 0 <= i < |s| ==> IsSpace(s[i])
  {
    var t := TrimStart(s);
    assert forall i :: |s| - |t| <= i < |s| ==> s[i] == t[i - (|s| - |t|)];
    TrimEnd(t)
  }

  /** Splitting at white space with `cur` the token being read: every
      maximal run of white space ends the current token, and the end of the
      input ends the last one (so an empty input yields one empty token).
      Starting from a space-free token, every piece is space-free. */
  function SplitSpaces(s: string, cur: string): (r: seq<string>)
    ensures |r| > 0
    ensures NoSpace(cur) ==> forall k :: 0 <= k < |r| ==> NoSpace(r[k])
    decreases |s|
  {
    if |s| == 0 then [cur]
    else if IsSpace(s[0]) then [cur] + SplitSpaces(TrimStart(s), "")
    else SplitSpaces(s[1..], cur + [s[0]])
  }

  /** The move tokens of a solver answer (main.js:200): the answer is
      trimmed and then split at every run of white space. There is always
      at least one token, and no token contains white space. */
  function Tokenize(solution: string): (r: seq<string>)
    ensures |r| > 0
    ensures forall k :: 0 <= k < |r| ==> NoSpace(r[k])
  {
    SplitSpaces(Trim(solution), "")
  }

  /** The tokens joined by single spaces. */
  function JoinSpace(ts: seq<string>): string
    requires |ts| > 0
  {
    if |ts| == 1 then ts[0] else ts[0] + " " + JoinSpace(ts[1..])
  }

  lemma {:induction false} TrimOfTrimmed(s: string)
    requires |s| > 0 && !IsSpace(s[0]) && !IsSpace(s[|s| - 1])
    ensures Trim(s) == s
  {
  }

  /** Trimming leaves the input's first and last non-space characters at the
      two ends. */
  lemma TrimEnds(s: string, i: int)
    requires 0 <= i < |s| && !IsSpace(s[i])
    ensures |Trim(s)| > 0 && !IsSpace(Trim(s)[0]) && !IsSpace(Trim(s)[|Trim(s)| - 1])
  {
    var t := TrimStart(s);
    TrimStartKeeps(s, i);
    var u := TrimEnd(t);
    TrimEndKeeps(t, i - (|s| - |t|));
    assert Trim(s) == u;
    assert !IsSpace(t[0]) && !IsSpace(u[|u| - 1]);
  }

  /** A non-space character survives `TrimStart`, at its index less the
      number of characters dropped. */
  lemma TrimStartKeeps(s: string, i: int)
    requires 0 <= i < |s| && !IsSpace(s[i])
    ensures |s| - |TrimStart(s)| <= i
    ensures TrimStart(s)[i - (|s| - |TrimStart(s)|)] == s[i]
  {
  }

  /** A non-space character survives `TrimEnd`, so the result is not empty
      and starts where its input starts. */
  lemma TrimEndKeeps(t: string, k: int)
    requires 0 <= k < |t| && !IsSpace(t[k])
    ensures k < |TrimEnd(t)| && TrimEnd(t)[0] == t[0]
  {
  }

  lemma {:induction false} SplitWellFormed(s: string, cur: string)
    requires NoSpace(cur)
    requires |s| == 0 ==> |cur| > 0
    requires |s| > 0 ==> !IsSpace(s[|s| - 1])
    requires |cur| == 0 ==> |s| > 0 && !IsSpace(s[0])
    ensures forall k :: 0 <= k < |SplitSpaces(s, cur)| ==> IsToken(SplitSpaces(s, cur)[k])
    decreases |s|
  {
    if |s| == 0 {
    } else if IsSpace(s[0]) {
      var rest := TrimStart(s);
      assert s[|s| - 1] == rest[|rest| - 1];
      SplitWellFormed(rest, "");
    } else {
      SplitWellFormed(s[1..], cur + [s[0]]);
    }
  }

  /** An answer with any non-space character gives a non-empty list of
      non-empty, space-free tokens. */
  lemma TokenizeWellFormed(solution: string, i: int)
    requires 0 <= i < |solution| && !IsSpace(solution[i])
    ensures |Tokenize(solution)| > 0
    ensures forall k :: 0 <= k < |Tokenize(solution)| ==> IsToken(Tokenize(solution)[k])
  {
    TrimEnds(solution, i);
    SplitWellFormed(Trim(solution), "");
  }

  /** An answer made only of white space gives the single empty token. */
  lemma TokenizeBlank(solution: string)
    requires forall i :: 0 <= i < |solution| ==> IsSpace(solution[i])
    ensures Tokenize(solution) == [""]
  {
    assert TrimStart(solution) == [];
  }

  lemma {:induction false} SplitThroughToken(w: string, rest: string, cur: string)
    requires NoSpace(w)
    ensures SplitSpaces(w + rest, cur) == SplitSpaces(rest, cur + w)
    decreases |w|
  {
    if |w| > 0 {
      assert (w + rest)[0] == w[0];
      assert (w + rest)[1..] == w[1..] + rest;
      SplitThroughToken(w[1..], rest, cur + [w[0]]);
      assert cur + [w[0]] + w[1..] == cur + w;
    } else {
      assert w + rest == rest;
      assert cur + w == cur;
    }
  }

  lemma {:induction false} SplitJoin(ts: seq<string>)
    requires |ts| > 0 && forall k :: 0 <= k < |ts| ==> IsToken(ts[k])
    ensures SplitSpaces(JoinSpace(ts), "") == ts
    decreases |ts|
  {
    if |ts| == 1 {
      SplitThroughToken(ts[0], "", "");
      assert ts[0] + "" == ts[0] && "" + ts[0] == ts[0];
      assert SplitSpaces("", ts[0]) == [ts[0]];
    } else {
      JoinStartsWithToken(ts[1..]);
      SplitAfterToken(ts[0], JoinSpace(ts[1..]));
      SplitJoin(ts[1..]);
      assert ts == [ts[0]] + ts[1..];
    }
  }

  /** A token, one space and a text starting with a non-space split into
      the token followed by the splitting of that text. */
  lemma SplitAfterToken(t: string, tail: string)
    requires IsToken(t) && |tail| > 0 && !IsSpace(tail[0])
    ensures SplitSpaces(t + " " + tail, "") == [t] + SplitSpaces(tail, "")
  {
    var spaced := " " + tail;
    SplitThroughToken(t, spaced, "");
    assert t + " " + tail == t + spaced;
    assert "" + t == t;
    assert spaced[0] == ' ' && spaced[1..] == tail;
    assert TrimStart(spaced) == tail;
  }

  lemma {:induction false} JoinStartsWithToken(ts: seq<string>)
    requires |ts| > 0 && forall k :: 0 <= k < |ts| ==> IsToken(ts[k])
    ensures |JoinSpace(ts)| > 0 && !IsSpace(JoinSpace(ts)[0]) && !IsSpace(JoinSpace(ts)[|JoinSpace(ts)| - 1])
    decreases |ts|
  {
    if |ts| > 1 {
      JoinStartsWithToken(ts[1..]);
      assert JoinSpace(ts)[0] == ts[0][0];
    }
  }

  /** Round trip: a list of tokens joined by spaces splits back into the
      same list. */
  lemma TokenizeJoin(ts: seq<string>)
    requires |ts| > 0 && forall k :: 0 <= k < |ts| ==> IsToken(ts[k])
    ensures Tokenize(JoinSpace(ts)) == ts
  {
    var joined := JoinSpace(ts);
    JoinStartsWithToken(ts);
    TrimOfTrimmed(joined);
    assert Tokenize(joined) == SplitSpaces(joined, "");
    SplitJoin(ts);
  }

  /** An independent description of what splitting keeps: the input with
      every maximal run of white space replaced by one plain space. */
  function Squeeze(s: string): (r: string)
    ensures |r| <= |s|
    decreases |s|
  {
    if |s| == 0 then ""
    else if IsSpace(s[0]) then " " + Squeeze(TrimStart(s[1..]))
    else [s[0]] + Squeeze(s[1..])
  }

  /** Joining the pieces by single spaces gives back the current token
      followed by the input with its white-space runs squeezed: splitting
      loses exactly the shape of the white space and nothing else. */
  lemma {:induction false} SplitSqueeze(s: string, cur: string)
    ensures JoinSpace(SplitSpaces(s, cur)) == cur + Squeeze(s)
    decreases |s|
  {
    if |s| == 0 {
      assert cur + "" == cur;
    } else if IsSpace(s[0]) {
      SplitSqueeze(TrimStart(s), "");
      SqueezeAfterSpace(s, cur);
    } else {
      SplitSqueeze(s[1..], cur + [s[0]]);
      SqueezeAfterChar(s, cur);
    }
  }

  /** The step of `SplitSqueeze` at a white-space run. */
  lemma SqueezeAfterSpace(s: string, cur: string)
    requires |s| > 0 && IsSpace(s[0])
    requires JoinSpace(SplitSpaces(TrimStart(s), "")) == "" + Squeeze(TrimStart(s))
    ensures JoinSpace(SplitSpaces(s, cur)) == cur + Squeeze(s)
  {
    var t := TrimStart(s);
    var w := Squeeze(t);
    assert t == TrimStart(s[1..]);
    assert Squeeze(s) == " " + w;
    var rest := SplitSpaces(t, "");
    assert SplitSpaces(s, cur) == [cur] + rest;
    JoinCons(cur, rest);
    assert "" + w == w;
    ConcatAssoc(cur, " ", w);
  }

  /** Joining a list with one more token in front. */
  lemma JoinCons(t: string, rest: seq<string>)
    requires |rest| > 0
    ensures JoinSpace([t] + rest) == t + " " + JoinSpace(rest)
  {
    assert ([t] + rest)[1..] == rest;
  }

  /** The step of `SplitSqueeze` at a non-space character. */
  lemma SqueezeAfterChar(s: string, cur: string)
    requires |s| > 0 && !IsSpace(s[0])
    requires JoinSpace(SplitSpaces(s[1..], cur + [s[0]])) == cur + [s[0]] + Squeeze(s[1..])
    ensures JoinSpace(SplitSpaces(s, cur)) == cur + Squeeze(s)
  {
    var w := Squeeze(s[1..]);
    assert Squeeze(s) == [s[0]] + w;
    assert SplitSpaces(s, cur) == SplitSpaces(s[1..], cur + [s[0]]);
    ConcatAssoc(cur, [s[0]], w);
  }

  lemma ConcatAssoc(a: string, b: string, c: string)
    ensures a + b + c == a + (b + c)
  {
  }

  /** The tokens of any answer, joined by single spaces, are the trimmed
      answer with its white-space runs squeezed. */
  lemma TokenizeSqueeze(solution: string)
    ensures JoinSpace(Tokenize(solution)) == Squeeze(Trim(solution))
  {
    SplitSqueeze(Trim(solution), "");
    assert "" + Squeeze(Trim(solution)) == Squeeze(Trim(solution));
  }

  /** Tokenizing is pinned down on every answer with a non-space: a list of
      tokens is its result exactly when joining them by single spaces gives
      the trimmed, squeezed answer. */
  lemma TokenizeCharacterised(solution: string, i: int, ts: seq<string>)
    requires 0 <= i < |solution| && !IsSpace(solution[i])
    requires |ts| > 0 && forall k :: 0 <= k < |ts| ==> IsToken(ts[k])
    ensures Tokenize(solution) == ts <==> JoinSpace(ts) == Squeeze(Trim(solution))
  {
    TokenizeSqueeze(solution);
    TokenizeWellFormed(solution, i);
    if JoinSpace(ts) == Squeeze(Trim(solution)) {
      JoinInjective(ts, Tokenize(solution));
    }
  }

  /** Different lists of tokens join to different strings. */
  lemma JoinInjective(ts: seq<string>, us: seq<string>)
    requires |ts| > 0 && forall k :: 0 <= k < |ts| ==> IsToken(ts[k])
    requires |us| > 0 && forall k :: 0 <= k < |us| ==> IsToken(us[k])
    requires JoinSpace(ts) == JoinSpace(us)
    ensures ts == us
  {
    SplitJoin(ts);
    SplitJoin(us);
  }
}
