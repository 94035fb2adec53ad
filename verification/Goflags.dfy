/** GOFLAGS values: splitting, quoting at two levels, and the two rewrites made on them. */
module Goflags {
  import opened Basics

  predicate IsSpace(c: char) { c == ' ' || c == '\t' || c == '\n' || c == '\r' }

  predicate IsQuote(c: char) { c == '\'' || c == '"' }

  // ---------------------------------------------------------------- splitting

  function SkipSpaces(s: string): (r: string)
    ensures |r| <= |s| && (r != "" ==> !IsSpace(r[0]))
  {
    if s != "" && IsSpace(s[0]) then SkipSpaces(s[1..]) else s
  }

  /** The index just behind the first q, or the length. */
  function Behind(s: string, q: char): (n: nat)
    ensures n <= |s| && (s != "" ==> n > 0)
  {
    if s == "" then 0 else if s[0] == q then 1 else 1 + Behind(s[1..], q)
  }

  function UpToSpace(s: string): (n: nat)
    ensures n <= |s| && (s != "" && !IsSpace(s[0]) ==> n > 0)
  {
    if s == "" || IsSpace(s[0]) then 0 else 1 + UpToSpace(s[1..])
  }

  function TokenLen(s: string): (n: nat)
    requires s != "" && !IsSpace(s[0])
    ensures 0 < n <= |s|
  {
    if IsQuote(s[0]) then 1 + Behind(s[1..], s[0]) else UpToSpace(s)
  }

  function Split(goflags: string): seq<string>
    decreases |goflags|
  {
    var s := SkipSpaces(goflags);
    if s == "" then [] else [s[..TokenLen(s)]] + Split(s[TokenLen(s)..])
  }

  lemma {:induction false} SkipsTo(s: string, i: nat)
    requires i <= |s| && forall k :: 0 <= k < i ==> IsSpace(s[k])
    requires i == |s| || !IsSpace(s[i])
    ensures SkipSpaces(s) == s[i..]
    decreases i
  {
    if i > 0 {
      SkipsTo(s[1..], i - 1);
      assert s[1..][i - 1..] == s[i..];
    }
  }

  lemma {:induction false} BehindAt(s: string, q: char, i: nat)
    requires i <= |s| && (forall k :: 0 <= k < i ==> s[k] != q) && (i == |s| || s[i] == q)
    ensures Behind(s, q) == if i == |s| then i else i + 1
    decreases i
  {
    if i > 0 { BehindAt(s[1..], q, i - 1); }
  }

  lemma {:induction false} UpToSpaceAt(s: string, i: nat)
    requires i <= |s| && (forall k :: 0 <= k < i ==> !IsSpace(s[k])) && (i == |s| || IsSpace(s[i]))
    ensures UpToSpace(s) == i
    decreases i
  {
    if i > 0 { UpToSpaceAt(s[1..], i - 1); }
  }

  method PastSpaces(goflags: string, i0: nat) returns (i: nat)
    requires i0 <= |goflags|
    ensures i0 <= i <= |goflags| && SkipSpaces(goflags[i0..]) == goflags[i..]
    ensures i < |goflags| ==> !IsSpace(goflags[i])
  {
    i := i0;
    while i < |goflags| && IsSpace(goflags[i])
      invariant i0 <= i <= |goflags| && forall k :: i0 <= k < i ==> IsSpace(goflags[k])
    {
      i := i + 1;
    }
    SkipsTo(goflags[i0..], i - i0);
    assert goflags[i0..][i - i0..] == goflags[i..];
  }

  method PastToken(goflags: string, start: nat) returns (i: nat)
    requires start < |goflags| && !IsSpace(goflags[start])
    ensures start < i <= |goflags| && i - start == TokenLen(goflags[start..])
  {
    ghost var s := goflags[start..];
    i := start;
    if IsQuote(goflags[i]) {
      var q := goflags[i];
      i := i + 1;
      while i < |goflags| && goflags[i] != q
        invariant start < i <= |goflags| && forall k :: start < k < i ==> goflags[k] != q
      {
        i := i + 1;
      }
      BehindAt(s[1..], q, i - start - 1);
      if i < |goflags| { i := i + 1; }
    } else {
      while i < |goflags| && !IsSpace(goflags[i])
        invariant start <= i <= |goflags| && forall k :: start <= k < i ==> !IsSpace(goflags[k])
      {
        i := i + 1;
      }
      UpToSpaceAt(s, i - start);
    }
  }

  method SplitGoflags(goflags: string) returns (tokens: seq<string>)
    ensures tokens == Split(goflags)
  {
    tokens := [];
    var i := 0;
    while i < |goflags|
      invariant i <= |goflags| && tokens + Split(goflags[i..]) == Split(goflags)
    {
      var start := PastSpaces(goflags, i);
      if start >= |goflags| { break; }
      var end := PastToken(goflags, start);
      SplitAt(goflags, i, start, end);
      Push(tokens, goflags[start..end], Split(goflags[end..]));
      tokens := tokens + [goflags[start..end]];
      i := end;
    }
  }

  lemma {:induction false} SplitAt(goflags: string, i: nat, start: nat, end: nat)
    requires i <= start < end <= |goflags| && SkipSpaces(goflags[i..]) == goflags[start..]
    requires !IsSpace(goflags[start]) && end - start == TokenLen(goflags[start..])
    ensures Split(goflags[i..]) == [goflags[start..end]] + Split(goflags[end..])
  {
    assert goflags[start..][..end - start] == goflags[start..end];
    assert goflags[start..][end - start..] == goflags[end..];
  }

  lemma {:induction false} Push<T>(ts: seq<T>, t: T, rest: seq<T>)
    ensures ts + ([t] + rest) == ts + [t] + rest
  {
  }

  // ---------------------------------------------------------------- the laws of splitting

  predicate IsBlank(c: char) { c in [' ', '\t', '\n', '\r'] }

  /** Blanks in front do not matter. */
  lemma {:induction false} SplitBlank(c: char, rest: string)
    requires IsBlank(c)
    ensures Split([c] + rest) == Split(rest) && Split("") == []
  {
    assert ([c] + rest)[1..] == rest;
    assert SkipSpaces([c] + rest) == SkipSpaces(rest);
  }

  /** A token that does not begin with a quote goes up to the next blank, whatever else is in it. */
  lemma {:induction false} SplitPlain(t: string, rest: string)
    requires t != "" && t[0] != '\'' && t[0] != '"' && (forall k :: 0 <= k < |t| ==> !IsBlank(t[k]))
    requires rest == "" || IsBlank(rest[0])
    ensures Split(t + rest) == [t] + Split(rest)
  {
    var s := t + rest;
    assert s[0] == t[0] && !IsSpace(s[0]) && !IsQuote(s[0]);
    forall k | 0 <= k < |t| ensures !IsSpace(s[k]) { assert s[k] == t[k]; }
    UpToSpaceAt(s, |t|);
    assert SkipSpaces(s) == s && s[..|t|] == t && s[|t|..] == rest;
  }

  /** A token that begins with a quote goes up to the next such quote, blanks included, and the next
      token begins right behind it; without a closing quote it is all that is left. */
  lemma {:induction false} SplitQuoted(q: char, body: string, rest: string)
    requires (q == '\'' || q == '"') && forall k :: 0 <= k < |body| ==> body[k] != q
    ensures Split([q] + body + [q] + rest) == [[q] + body + [q]] + Split(rest)
    ensures Split([q] + body) == [[q] + body]
  {
    var t := [q] + body + [q];
    var s := t + rest;
    assert s[1..] == body + [q] + rest && s[0] == q;
    BehindAt(s[1..], q, |body|);
    assert SkipSpaces(s) == s && TokenLen(s) == |t| && s[..|t|] == t && s[|t|..] == rest;
    var u := [q] + body;
    assert u[1..] == body;
    BehindAt(body, q, |body|);
    assert SkipSpaces(u) == u && TokenLen(u) == |u| && u[..|u|] == u && u[|u|..] == "";
    assert Split("") == [];
  }

  // ---------------------------------------------------------------- tokens

  predicate NoSpace(s: string) { forall k :: 0 <= k < |s| ==> !IsSpace(s[k]) }

  predicate Lacks(s: string, q: char) { forall k :: 0 <= k < |s| ==> s[k] != q }

  /** A token that ends by itself: without blanks, or with its closing quote. */
  predicate Closed(t: string) {
    t != "" && if IsQuote(t[0]) then |t| >= 2 && t[|t| - 1] == t[0] && Lacks(t[1..|t| - 1], t[0]) else NoSpace(t)
  }

  /** A quoted token whose closing quote is missing. */
  predicate Unterminated(t: string) {
    t != "" && IsQuote(t[0]) && Lacks(t[1..], t[0])
  }

  /** Only the last token can be unterminated. */
  predicate Tokens(ts: seq<string>) {
    forall i :: 0 <= i < |ts| ==> Closed(ts[i]) || (i == |ts| - 1 && Unterminated(ts[i]))
  }

  function Join(ts: seq<string>): string {
    if ts == [] then "" else if |ts| == 1 then ts[0] else ts[0] + " " + Join(ts[1..])
  }

  lemma {:induction false} BehindSplits(s: string, q: char)
    ensures var n := Behind(s, q); Lacks(s[..n], q) || (n > 0 && s[n - 1] == q && Lacks(s[..n - 1], q))
    ensures Lacks(s[..Behind(s, q)], q) ==> Behind(s, q) == |s|
    decreases |s|
  {
    if s != "" && s[0] != q {
      BehindSplits(s[1..], q);
      var n := Behind(s[1..], q);
      assert s[..n + 1] == [s[0]] + s[1..][..n];
      if n > 0 { assert s[..n] == [s[0]] + s[1..][..n - 1]; }
    }
  }

  lemma {:induction false} UpToSpaceHasNone(s: string)
    ensures NoSpace(s[..UpToSpace(s)])
    decreases |s|
  {
    if s != "" && !IsSpace(s[0]) {
      UpToSpaceHasNone(s[1..]);
      assert s[..UpToSpace(s)] == [s[0]] + s[1..][..UpToSpace(s[1..])];
    }
  }

  /** Splitting gives tokens. */
  lemma {:induction false} SplitGivesTokens(goflags: string)
    ensures Tokens(Split(goflags))
    decreases |goflags|
  {
    var s := SkipSpaces(goflags);
    if s != "" {
      var n := TokenLen(s);
      FirstToken(s);
      SplitGivesTokens(s[n..]);
      if n == |s| { assert Split(s[n..]) == []; }
    }
  }

  lemma {:induction false} FirstToken(s: string)
    requires s != "" && !IsSpace(s[0])
    ensures var t := s[..TokenLen(s)]; Closed(t) || (Unterminated(t) && TokenLen(s) == |s|)
  {
    var n := TokenLen(s);
    var t := s[..n];
    if IsQuote(s[0]) {
      BehindSplits(s[1..], s[0]);
      assert t[1..] == s[1..][..n - 1];
      if n >= 2 { assert t[1..|t| - 1] == s[1..][..n - 2]; }
    } else {
      UpToSpaceHasNone(s);
    }
  }

  /** A closed token is split off whatever follows the blank behind it. */
  lemma {:induction false} SplitFirst(t: string, r: string)
    requires Closed(t)
    ensures Split(t + " " + r) == [t] + Split(r)
  {
    var s := t + " " + r;
    assert SkipSpaces(s) == s;
    if IsQuote(t[0]) {
      BehindAt(s[1..], t[0], |t| - 2) by {
        forall k | 0 <= k < |t| - 2 ensures s[1..][k] != t[0] { assert s[1..][k] == t[1..|t| - 1][k]; }
      }
    } else {
      UpToSpaceAt(s, |t|);
    }
    assert TokenLen(s) == |t|;
    assert s[..|t|] == t && s[|t|..] == " " + r;
    assert (" " + r)[1..] == r;
    assert Split(" " + r) == Split(r);
  }

  lemma {:induction false} SplitOne(t: string)
    requires Closed(t) || Unterminated(t)
    ensures Split(t) == [t]
  {
    assert SkipSpaces(t) == t;
    if IsQuote(t[0]) {
      if Unterminated(t) {
        BehindAt(t[1..], t[0], |t| - 1);
      } else {
        BehindAt(t[1..], t[0], |t| - 2) by {
          forall k | 0 <= k < |t| - 2 ensures t[1..][k] != t[0] { assert t[1..][k] == t[1..|t| - 1][k]; }
        }
      }
    } else {
      UpToSpaceAt(t, |t|);
    }
    assert t[..|t|] == t && t[|t|..] == "";
  }

  /** Joining tokens with blanks and splitting again gives the tokens back. */
  lemma {:induction false} SplitJoin(ts: seq<string>)
    requires Tokens(ts)
    ensures Split(Join(ts)) == ts
    decreases |ts|
  {
    if |ts| == 1 {
      SplitOne(ts[0]);
      assert ts == [ts[0]];
    } else if |ts| > 1 {
      SplitFirst(ts[0], Join(ts[1..]));
      SplitJoin(ts[1..]);
    }
  }

  // ---------------------------------------------------------------- quoting

  datatype Result = Ok(value: string) | Err

  function Unquote(token: string): string {
    if |token| >= 2 && IsQuote(token[0]) && token[|token| - 1] == token[0] then token[1..|token| - 1] else token
  }

  predicate NeedsQuotes(token: string) {
    !NoSpace(token) || (token != "" && IsQuote(token[0]))
  }

  function Quote(token: string): Result {
    if !NeedsQuotes(token) then Ok(token)
    else if Lacks(token, '\'') then Ok("'" + token + "'")
    else if Lacks(token, '"') then Ok("\"" + token + "\"")
    else Err
  }

  /** A token is left alone exactly when it has no blank and does not begin with a quote. */
  lemma {:induction false} QuotesWhenNeeded(token: string)
    requires token != ""
    ensures NeedsQuotes(token) <==>
            (exists k :: 0 <= k < |token| && IsBlank(token[k])) || token[0] == '\'' || token[0] == '"'
    ensures Quote(token) == Ok(token) <==> !NeedsQuotes(token)
  {
    assert forall c: char :: IsBlank(c) <==> IsSpace(c);
    if NeedsQuotes(token) && Quote(token).Ok? { assert |Quote(token).value| == |token| + 2; }
  }

  /** A quoted token is a single closed token that unquotes to the original; quoting fails exactly
      for a token that needs quotes and contains both kinds. */
  lemma {:induction false} QuoteRoundTrip(token: string)
    requires token != ""
    ensures Quote(token).Ok? ==> Closed(Quote(token).value) && Unquote(Quote(token).value) == token
    ensures Quote(token).Ok? <==> !NeedsQuotes(token) || Lacks(token, '\'') || Lacks(token, '"')
  {
    if Quote(token).Ok? && NeedsQuotes(token) {
      var t := Quote(token).value;
      assert t[1..|t| - 1] == token;
    }
  }

  function BuildToolexecFlag(execPath: string): Result {
    var quoted := Quote(execPath);
    if quoted.Err? then Err else Ok("-toolexec=" + quoted.value + " toolexec")
  }

  function NestedToolexecGoflagsToken(execPath: string): Result {
    var inner := BuildToolexecFlag(execPath);
    if inner.Err? then Err else Quote(inner.value)
  }

  /** What the go command makes of the flag's value. */
  function ToolexecArgs(flag: string): seq<string>
    requires |flag| >= 10
  {
    var args := Split(flag[10..]);
    seq(|args|, i requires 0 <= i < |args| => Unquote(args[i]))
  }

  lemma {:induction false} FlagRoundTrip(execPath: string)
    requires execPath != "" && Quote(execPath).Ok?
    ensures var flag := BuildToolexecFlag(execPath).value;
            |flag| >= 10 && flag[..10] == "-toolexec=" && ToolexecArgs(flag) == [execPath, "toolexec"]
  {
    var q := Quote(execPath).value;
    QuoteRoundTrip(execPath);
    FlagParts(q);
    SplitValue(q);
  }

  lemma {:induction false} SplitValue(q: string)
    requires Closed(q)
    ensures Split(q + " " + "toolexec") == [q, "toolexec"] && Unquote("toolexec") == "toolexec"
  {
    SplitFirst(q, "toolexec");
    SplitToolexec();
  }

  lemma {:induction false} SplitToolexec()
    ensures Split("toolexec") == ["toolexec"]
  {
    assert Closed("toolexec");
    SplitOne("toolexec");
  }

  lemma {:induction false} FlagParts(q: string)
    ensures var flag := "-toolexec=" + q + " toolexec";
            |flag| >= 10 && flag[..10] == "-toolexec=" && flag[10..] == q + " " + "toolexec"
  {
    assert " toolexec" == " " + "toolexec";
    assert q + " toolexec" == q + " " + "toolexec";
  }

  // ---------------------------------------------------------------- appending to GOFLAGS

  lemma {:induction false} SkipAppend(s: string, x: string)
    requires SkipSpaces(s) != ""
    ensures SkipSpaces(s + x) == SkipSpaces(s) + x
    decreases |s|
  {
    assert (s + x)[1..] == s[1..] + x;
    if IsSpace(s[0]) { SkipAppend(s[1..], x); }
  }

  lemma {:induction false} SkipOver(s: string, x: string)
    requires SkipSpaces(s) == "" && x != "" && !IsSpace(x[0])
    ensures SkipSpaces(s + " " + x) == x
    decreases |s|
  {
    if s == "" {
      assert (s + " " + x)[1..] == x;
    } else {
      assert (s + " " + x)[1..] == s[1..] + " " + x;
      SkipOver(s[1..], x);
    }
  }

  /** What follows a blank does not lengthen a token that ends by itself. */
  lemma {:induction false} TokenStays(s: string, x: string)
    requires s != "" && !IsSpace(s[0]) && Closed(s[..TokenLen(s)])
    ensures TokenLen(s + " " + x) == TokenLen(s)
  {
    var n, u := TokenLen(s), s + " " + x;
    var t := s[..n];
    if IsQuote(s[0]) {
      BehindAt(u[1..], s[0], n - 2) by {
        forall k | 0 <= k < n - 2 ensures u[1..][k] != s[0] { assert u[1..][k] == t[1..n - 1][k]; }
        assert u[1..][n - 2] == t[n - 1];
      }
    } else {
      UpToSpaceStops(s);
      UpToSpaceAt(u, n) by {
        forall k | 0 <= k < n ensures !IsSpace(u[k]) { assert u[k] == t[k]; }
      }
    }
  }

  lemma {:induction false} UpToSpaceStops(s: string)
    ensures UpToSpace(s) == |s| || IsSpace(s[UpToSpace(s)])
    decreases |s|
  {
    if s != "" && !IsSpace(s[0]) { UpToSpaceStops(s[1..]); }
  }

  lemma {:induction false} SplitUnfolds(s: string, n: nat)
    requires SkipSpaces(s) != "" && n == TokenLen(SkipSpaces(s))
    ensures Split(s) == [SkipSpaces(s)[..n]] + Split(SkipSpaces(s)[n..])
  {
  }

  /** A token put behind a value, with a blank in between, is split off whole. */
  lemma {:induction false} SplitAppend(goflags: string, token: string)
    requires Closed(token) && forall t :: t in Split(goflags) ==> Closed(t)
    ensures Split(goflags + " " + token) == Split(goflags) + [token]
    decreases |goflags|
  {
    var s := SkipSpaces(goflags);
    if s == "" {
      SkipOver(goflags, token);
      SplitSkips(goflags + " " + token);
      SplitOne(token);
    } else {
      SplitAppendFirst(goflags, token);
      var n := TokenLen(s);
      SplitUnfolds(goflags, n);
      forall t | t in Split(s[n..]) ensures Closed(t) { assert t in Split(goflags); }
      SplitAppend(s[n..], token);
      assert [s[..n]] + (Split(s[n..]) + [token]) == [s[..n]] + Split(s[n..]) + [token];
    }
  }

  lemma {:induction false} SplitAppendFirst(goflags: string, token: string)
    requires SkipSpaces(goflags) != "" && Closed(SkipSpaces(goflags)[..TokenLen(SkipSpaces(goflags))])
    ensures var s := SkipSpaces(goflags);
            var n := TokenLen(s);
            Split(goflags + " " + token) == [s[..n]] + Split(s[n..] + " " + token)
  {
    var s := SkipSpaces(goflags);
    var n, u := TokenLen(s), goflags + " " + token;
    assert u == goflags + (" " + token) && s + " " + token == s + (" " + token);
    SkipAppend(goflags, " " + token);
    TokenStays(s, token);
    SplitUnfolds(u, n);
    assert (s + " " + token)[..n] == s[..n] && (s + " " + token)[n..] == s[n..] + " " + token;
  }

  function TrimLeft(s: string): (r: string)
    ensures |r| <= |s| && (r != "" ==> !IsWhiteSpace(r[0]))
  {
    if s != "" && IsWhiteSpace(s[0]) then TrimLeft(s[1..]) else s
  }

  function TrimRight(s: string): string {
    if s != "" && IsWhiteSpace(s[|s| - 1]) then TrimRight(s[..|s| - 1]) else s
  }

  function TrimSpace(s: string): string { TrimRight(TrimLeft(s)) }

  /** Trimming first passes the blanks that splitting skips anyway. */
  lemma {:induction false} TrimSkips(s: string)
    ensures TrimLeft(s) == TrimLeft(SkipSpaces(s))
    decreases |s|
  {
    if s != "" && IsSpace(s[0]) { TrimSkips(s[1..]); }
  }

  lemma {:induction false} TrimLeftLast(s: string)
    requires s != "" && !IsWhiteSpace(s[|s| - 1])
    ensures TrimLeft(s) != "" && TrimLeft(s)[|TrimLeft(s)| - 1] == s[|s| - 1]
    decreases |s|
  {
    if IsWhiteSpace(s[0]) { TrimLeftLast(s[1..]); }
  }

  /** Splitting does not look at the blanks in front. */
  lemma {:induction false} SplitSkips(s: string)
    ensures Split(SkipSpaces(s)) == Split(s)
  {
    var r := SkipSpaces(s);
    assert SkipSpaces(r) == r;
  }

  /** Trimming a value that does not end in white space changes its tokens exactly when the first
      of them begins with white space that splitting does not know, as a vertical tab. */
  lemma {:induction false} TrimKeepsTokens(s: string)
    requires s != "" && !IsWhiteSpace(s[|s| - 1])
    ensures Split(TrimSpace(s)) == Split(s) <==> SkipSpaces(s) == "" || !IsWhiteSpace(SkipSpaces(s)[0])
  {
    var r := SkipSpaces(s);
    TrimSkips(s);
    TrimLeftLast(s);
    SplitSkips(s);
    var u := TrimLeft(s);
    assert TrimRight(u) == u && SkipSpaces(u) == u;
    if r != "" && IsWhiteSpace(r[0]) {
      assert Split(s)[0][0] == r[0];
      assert Split(u)[0][0] == u[0];
    }
  }

  /** The GOFLAGS value that nested go commands get. */
  function NestedGoflags(goflags: string, token: string): string { TrimSpace(goflags + " " + token) }

  /** A value whose first token does not begin with white space. */
  predicate StartsPlainly(goflags: string) {
    SkipSpaces(goflags) == "" || !IsWhiteSpace(SkipSpaces(goflags)[0])
  }

  predicate AllComplete(ts: seq<string>) { forall t :: t in ts ==> Closed(t) }

  /** Unquoting and splitting the nested token recovers the path.  Appended to a GOFLAGS value, the
      token is split off whole behind the value's own tokens if and only if these are complete and
      the value starts plainly. */
  lemma {:induction false} NestedRoundTrip(goflags: string, execPath: string)
    requires execPath != "" && NestedToolexecGoflagsToken(execPath).Ok?
    ensures var token := NestedToolexecGoflagsToken(execPath).value;
            && (Split(NestedGoflags(goflags, token)) == Split(goflags) + [token] <==>
              AllComplete(Split(goflags)) && StartsPlainly(goflags))
            && |Unquote(token)| >= 10 && Unquote(token)[..10] == "-toolexec="
            && ToolexecArgs(Unquote(token)) == [execPath, "toolexec"]
  {
    var flag := BuildToolexecFlag(execPath).value;
    FlagRoundTrip(execPath);
    QuoteRoundTrip(flag);
    QuotedFlag(flag);
    AppendedFlag(goflags, Quote(flag).value);
  }

  lemma {:induction false} AppendedFlag(goflags: string, token: string)
    requires Closed(token) && IsQuote(token[0])
    ensures Split(NestedGoflags(goflags, token)) == Split(goflags) + [token] <==>
            AllComplete(Split(goflags)) && StartsPlainly(goflags)
  {
    var ts := Split(goflags);
    if AllComplete(ts) {
      SplitAppend(goflags, token);
      AppendedStart(goflags, token);
      TrimKeepsTokens(goflags + " " + token);
    } else {
      SplitGivesTokens(NestedGoflags(goflags, token));
      if Split(NestedGoflags(goflags, token)) == ts + [token] { NotAllComplete(ts, token); }
    }
  }

  /** Nothing is split off behind an incomplete token. */
  lemma {:induction false} NotAllComplete(ts: seq<string>, token: string)
    requires Tokens(ts + [token])
    ensures AllComplete(ts)
  {
    forall t | t in ts ensures Closed(t) {
      var i :| 0 <= i < |ts| && ts[i] == t;
      assert (ts + [token])[i] == t;
    }
  }

  lemma {:induction false} AppendedStart(goflags: string, token: string)
    requires token != "" && IsQuote(token[0]) && token[|token| - 1] == token[0]
    ensures var u := goflags + " " + token;
            && u != "" && !IsWhiteSpace(u[|u| - 1]) && SkipSpaces(u) != ""
            && (StartsPlainly(goflags) <==> !IsWhiteSpace(SkipSpaces(u)[0]))
  {
    var u := goflags + " " + token;
    assert u[|u| - 1] == token[|token| - 1];
    if SkipSpaces(goflags) == "" {
      SkipOver(goflags, token);
    } else {
      assert u == goflags + (" " + token);
      SkipAppend(goflags, " " + token);
    }
  }

  /** The flag holds a blank, so it needs quotes. */
  lemma {:induction false} QuotedFlag(flag: string)
    requires Quote(flag).Ok? && |flag| >= 9 && flag[|flag| - 9..] == " toolexec"
    ensures Quote(flag).value != "" && IsQuote(Quote(flag).value[0])
  {
    assert flag[|flag| - 9] == flag[|flag| - 9..][0] == ' ';
    assert IsSpace(flag[|flag| - 9]) && NeedsQuotes(flag);
  }

  /** Which paths can be passed on: with a blank or a leading quote, those without any quote; else
      those that do not contain both kinds. */
  lemma {:induction false} NestedTokenExists(execPath: string)
    requires execPath != ""
    ensures NestedToolexecGoflagsToken(execPath).Ok? <==>
              if NeedsQuotes(execPath) then Lacks(execPath, '\'') && Lacks(execPath, '"')
              else Lacks(execPath, '\'') || Lacks(execPath, '"')
  {
    if Quote(execPath).Ok? {
      var q := Quote(execPath).value;
      var flag := BuildToolexecFlag(execPath).value;
      assert flag == "-toolexec=" + q + " toolexec";
      assert IsSpace(flag[10 + |q|]) && !NoSpace(flag);
      forall c: char | IsQuote(c) ensures Lacks(flag, c) <==> Lacks(q, c) { FlagQuotes(q, c); }
      if NeedsQuotes(execPath) {
        assert q[0] == q[|q| - 1] && IsQuote(q[0]);
        forall c: char | c != q[0] ensures Lacks(q, c) <==> Lacks(execPath, c) { Inside(execPath, q, c); }
      }
    }
  }

  lemma {:induction false} FlagQuotes(q: string, c: char)
    requires IsQuote(c)
    ensures Lacks("-toolexec=" + q + " toolexec", c) <==> Lacks(q, c)
  {
    var flag := "-toolexec=" + q + " toolexec";
    assert forall k :: 0 <= k < |q| ==> flag[10 + k] == q[k];
  }

  lemma {:induction false} Inside(s: string, q: string, c: char)
    requires |q| == |s| + 2 && q[1..|s| + 1] == s && c != q[0] && c != q[|s| + 1]
    ensures Lacks(q, c) <==> Lacks(s, c)
  {
    assert forall k :: 0 <= k < |s| ==> q[k + 1] == s[k];
  }

  // ---------------------------------------------------------------- rewrites of whole values

  /** The token reads `flag`: bare, or between a pair of quotes. */
  predicate Reads(token: string, flag: string) {
    (token == flag && (flag == "" || !IsQuote(flag[0]))) || token == "'" + flag + "'" || token == "\"" + flag + "\""
  }

  lemma {:induction false} ReadsIsUnquote(token: string, flag: string)
    requires flag != "" && !IsQuote(flag[0])
    ensures Reads(token, flag) <==> Unquote(token) == flag
  {
    if Unquote(token) == flag && token != flag {
      assert token == [token[0]] + token[1..|token| - 1] + [token[|token| - 1]];
      assert [token[0]] == "'" || [token[0]] == "\"";
    }
    if token == "'" + flag + "'" || token == "\"" + flag + "\"" { assert token[1..|token| - 1] == flag; }
  }

  /** A token that reads `-toolexec` or `-toolexec=...`. */
  ghost predicate ReadsToolexec(token: string) {
    Reads(token, "-toolexec") || exists value :: Reads(token, "-toolexec=" + value)
  }

  lemma {:induction false} ToolexecReads(token: string)
    ensures IsToolexec(token) <==> ReadsToolexec(token)
  {
    var flag := Unquote(token);
    ReadsIsUnquote(token, "-toolexec");
    if |flag| >= 10 && flag[..10] == "-toolexec=" {
      assert flag == "-toolexec=" + flag[10..];
      ReadsIsUnquote(token, "-toolexec=" + flag[10..]);
    }
    if value :| Reads(token, "-toolexec=" + value) {
      ReadsIsUnquote(token, "-toolexec=" + value);
      assert flag[..10] == "-toolexec=";
    }
  }

  /** Stripping works token by token, in order: one that reads as a toolexec flag goes, any other stays. */
  lemma {:induction false} StripIsPointwise(ts: seq<string>, t: string)
    ensures WithoutToolexec([]) == []
    ensures WithoutToolexec(ts + [t]) == WithoutToolexec(ts) + if ReadsToolexec(t) then [] else [t]
  {
    ToolexecReads(t);
    assert (ts + [t])[..|ts|] == ts;
  }

  predicate IsToolexec(token: string) {
    var flag := Unquote(token);
    flag == "-toolexec" || (|flag| >= 10 && flag[..10] == "-toolexec=")
  }

  function WithoutToolexec(ts: seq<string>): seq<string> {
    if ts == [] then []
    else WithoutToolexec(ts[..|ts| - 1]) + if IsToolexec(ts[|ts| - 1]) then [] else [ts[|ts| - 1]]
  }

  method StripToolexec(goflags: string) returns (r: string)
    ensures r == Join(WithoutToolexec(Split(goflags)))
  {
    var tokens := SplitGoflags(goflags);
    var kept := [];
    for i := 0 to |tokens|
      invariant kept == WithoutToolexec(tokens[..i])
    {
      assert tokens[..i + 1][..i] == tokens[..i];
      if !IsToolexec(tokens[i]) { kept := kept + [tokens[i]]; }
    }
    assert tokens[..|tokens|] == tokens;
    r := Join(kept);
  }

  lemma {:induction false} SomeTokens(ts: seq<string>)
    requires Tokens(ts)
    ensures Tokens(WithoutToolexec(ts))
    decreases |ts|
  {
    if ts != [] {
      var init := ts[..|ts| - 1];
      forall i | 0 <= i < |init| ensures Closed(init[i]) { assert init[i] == ts[i]; }
      SomeTokens(init);
      AllClosed(init);
    }
  }

  lemma {:induction false} AllClosed(ts: seq<string>)
    requires forall i :: 0 <= i < |ts| ==> Closed(ts[i])
    ensures forall t :: t in WithoutToolexec(ts) ==> Closed(t)
    decreases |ts|
  {
    if ts != [] { AllClosed(ts[..|ts| - 1]); }
  }

  /** The stripped value splits into exactly the other tokens, in order. */
  lemma {:induction false} StripKeepsTheRest(goflags: string)
    ensures Split(Join(WithoutToolexec(Split(goflags)))) == WithoutToolexec(Split(goflags))
    ensures forall t :: t in WithoutToolexec(Split(goflags)) <==> t in Split(goflags) && !IsToolexec(t)
  {
    SplitGivesTokens(goflags);
    SomeTokens(Split(goflags));
    SplitJoin(WithoutToolexec(Split(goflags)));
    KeptAre(Split(goflags));
  }

  lemma {:induction false} KeptAre(ts: seq<string>)
    ensures forall t :: t in WithoutToolexec(ts) <==> t in ts && !IsToolexec(t)
    decreases |ts|
  {
    if ts != [] {
      KeptAre(ts[..|ts| - 1]);
      assert ts == ts[..|ts| - 1] + [ts[|ts| - 1]];
    }
  }

  predicate IsVendor(token: string) { Unquote(token) == "-mod=vendor" || Unquote(token) == "--mod=vendor" }

  predicate IsMod(token: string) {
    var flag := Unquote(token);
    flag == "-mod" || flag == "--mod" || HasPrefix(flag, "-mod=") || HasPrefix(flag, "--mod=")
  }

  const MOD_MOD := "-mod=mod"

  function ModFor(token: string): string { if IsVendor(token) then MOD_MOD else token }

  function Rewritten(ts: seq<string>): (r: seq<string>)
    ensures |r| == |ts| && forall i :: 0 <= i < |ts| ==> r[i] == ModFor(ts[i])
  {
    seq(|ts|, i requires 0 <= i < |ts| => ModFor(ts[i]))
  }

  predicate HasMod(ts: seq<string>) { exists i :: 0 <= i < |ts| && IsMod(ts[i]) }

  function Forced(ts: seq<string>): seq<string> {
    Rewritten(ts) + if HasMod(ts) then [] else [MOD_MOD]
  }

  method ForceModMod(goflags: string) returns (r: string)
    ensures r == Join(Forced(Split(goflags)))
  {
    var fields := SplitGoflags(goflags);
    ghost var ts := fields;
    var hasMod := false;
    assert Rewritten(ts[..0]) + ts[0..] == ts;
    for i := 0 to |fields|
      invariant |fields| == |ts| && fields == Rewritten(ts[..i]) + ts[i..] && hasMod == HasMod(ts[..i])
    {
      var f := fields[i];
      ForceStep(ts, i);
      if IsVendor(f) {
        fields := fields[i := MOD_MOD];
        hasMod := true;
      } else if IsMod(f) {
        hasMod := true;
      }
    }
    assert ts[..|ts|] == ts && fields == Rewritten(ts);
    if !hasMod { fields := fields + [MOD_MOD]; }
    r := Join(fields);
  }

  lemma {:induction false} ForceStep(ts: seq<string>, i: nat)
    requires i < |ts|
    ensures var fields := Rewritten(ts[..i]) + ts[i..];
            fields[i] == ts[i] && Rewritten(ts[..i + 1]) + ts[i + 1..] == fields[i := ModFor(ts[i])]
    ensures HasMod(ts[..i + 1]) <==> HasMod(ts[..i]) || IsMod(ts[i])
    ensures IsVendor(ts[i]) ==> IsMod(ts[i])
  {
    VendorIsMod(ts[i]);
    assert Rewritten(ts[..i + 1]) == Rewritten(ts[..i]) + [ModFor(ts[i])];
    assert ts[i..] == [ts[i]] + ts[i + 1..];
    HasModPush(ts[..i], ts[i]);
    assert ts[..i + 1] == ts[..i] + [ts[i]];
  }

  lemma {:induction false} HasModPush(ts: seq<string>, t: string)
    ensures HasMod(ts + [t]) <==> HasMod(ts) || IsMod(t)
  {
    var all := ts + [t];
    if HasMod(ts) {
      var k :| 0 <= k < |ts| && IsMod(ts[k]);
      assert IsMod(all[k]);
    }
    if IsMod(t) { assert IsMod(all[|ts|]); }
    if HasMod(all) {
      var k :| 0 <= k < |all| && IsMod(all[k]);
      assert k < |ts| ==> IsMod(ts[k]);
    }
  }

  lemma {:induction false} VendorIsMod(token: string)
    ensures IsVendor(token) ==> IsMod(token)
  {
  }

  /** The new value splits into the intended tokens if and only if nothing was appended behind an
      unterminated quote. */
  lemma {:induction false} ForceSplits(goflags: string)
    ensures var ts := Split(goflags);
            Split(Join(Forced(ts))) == Forced(ts) <==> HasMod(ts) || ts == [] || Closed(ts[|ts| - 1])
  {
    var ts := Split(goflags);
    SplitGivesTokens(goflags);
    RewrittenTokens(ts);
    assert Closed(MOD_MOD);
    if HasMod(ts) {
      assert Forced(ts) == Rewritten(ts);
      SplitJoin(Forced(ts));
    } else if ts == [] || Closed(ts[|ts| - 1]) {
      assert Tokens(Forced(ts));
      SplitJoin(Forced(ts));
    } else {
      assert Forced(ts)[|ts| - 1] == ts[|ts| - 1] && |Forced(ts)| > |ts|;
      assert !Tokens(Forced(ts));
      SplitGivesTokens(Join(Forced(ts)));
    }
  }

  lemma {:induction false} RewrittenTokens(ts: seq<string>)
    requires Tokens(ts)
    ensures Tokens(Rewritten(ts))
    ensures ts != [] && !Closed(ts[|ts| - 1]) ==> Rewritten(ts)[|ts| - 1] == ts[|ts| - 1]
  {
    forall i | 0 <= i < |ts|
      ensures Closed(Rewritten(ts)[i])
              || (i == |ts| - 1 && Unterminated(Rewritten(ts)[i]) && Rewritten(ts)[i] == ts[i]) {
      RewrittenToken(ts[i]);
    }
  }

  lemma {:induction false} RewrittenToken(t: string)
    ensures Closed(t) ==> Closed(ModFor(t))
    ensures Unterminated(t) && !Closed(t) ==> ModFor(t) == t
  {
    if Unterminated(t) && |t| >= 2 { assert t[1..][|t| - 2] == t[|t| - 1]; }
  }

  /** No vendor token is left, some -mod token is there, and every other token stays where it was. */
  lemma {:induction false} ForceSelects(ts: seq<string>)
    ensures (forall t :: t in Forced(ts) ==> !IsVendor(t)) && HasMod(Forced(ts)) && |ts| <= |Forced(ts)|
    ensures forall i :: 0 <= i < |ts| && !IsVendor(ts[i]) ==> Forced(ts)[i] == ts[i]
    ensures Forced(Forced(ts)) == Forced(ts)
  {
    assert IsMod(MOD_MOD) && !IsVendor(MOD_MOD);
    if HasMod(ts) {
      var i :| 0 <= i < |ts| && IsMod(ts[i]);
      assert IsMod(Forced(ts)[i]);
    } else {
      assert IsMod(Forced(ts)[|ts|]);
    }
    assert Rewritten(Forced(ts)) == Forced(ts);
  }

  /** A token that selects a module mode: `-mod`, with one dash or two, with a value or without. */
  ghost predicate ReadsMod(token: string) {
    Reads(token, "-mod") || Reads(token, "--mod")
    || exists value :: Reads(token, "-mod=" + value) || Reads(token, "--mod=" + value)
  }

  predicate ReadsVendor(token: string) { Reads(token, "-mod=vendor") || Reads(token, "--mod=vendor") }

  lemma {:induction false} ModReads(token: string)
    ensures IsMod(token) <==> ReadsMod(token)
    ensures IsVendor(token) <==> ReadsVendor(token)
  {
    var flag := Unquote(token);
    ReadsIsUnquote(token, "-mod");
    ReadsIsUnquote(token, "--mod");
    ReadsIsUnquote(token, "-mod=vendor");
    ReadsIsUnquote(token, "--mod=vendor");
    if HasPrefix(flag, "-mod=") {
      assert flag == "-mod=" + flag[5..];
      ReadsIsUnquote(token, "-mod=" + flag[5..]);
    }
    if HasPrefix(flag, "--mod=") {
      assert flag == "--mod=" + flag[6..];
      ReadsIsUnquote(token, "--mod=" + flag[6..]);
    }
    if value :| Reads(token, "-mod=" + value) || Reads(token, "--mod=" + value) {
      ReadsIsUnquote(token, "-mod=" + value);
      ReadsIsUnquote(token, "--mod=" + value);
      assert Reads(token, "-mod=" + value) ==> flag[..5] == "-mod=";
      assert Reads(token, "--mod=" + value) ==> flag[..6] == "--mod=";
    }
  }

  /** Every token that reads `-mod=vendor` becomes `-mod=mod`, any other stays; and `-mod=mod` is added
      exactly when no token selects a module mode, so that `-mod=readonly` is left alone. */
  lemma {:induction false} ForceReads(ts: seq<string>)
    ensures forall i :: 0 <= i < |ts| ==> Forced(ts)[i] == if ReadsVendor(ts[i]) then "-mod=mod" else ts[i]
    ensures if exists t :: t in ts && ReadsMod(t) then |Forced(ts)| == |ts|
            else |Forced(ts)| == |ts| + 1 && Forced(ts)[|ts|] == "-mod=mod"
  {
    forall t ensures (IsMod(t) <==> ReadsMod(t)) && (IsVendor(t) <==> ReadsVendor(t)) { ModReads(t); }
    if t :| t in ts && ReadsMod(t) {
      var i :| 0 <= i < |ts| && ts[i] == t;
      assert IsMod(ts[i]);
    }
  }

  /** Forcing twice is forcing once, as strings. */
  lemma {:induction false} ForceIsIdempotent(goflags: string)
    requires forall t :: t in Split(goflags) ==> Closed(t)
    ensures var once := Join(Forced(Split(goflags))); Join(Forced(Split(once))) == once
  {
    ForceSplits(goflags);
    ForceSelects(Split(goflags));
  }
}
