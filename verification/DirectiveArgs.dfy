/** The arguments of a directive comment, `key:value` separated by blanks, with double-quoted values. */
module DirectiveArgs {
  import opened Basics

  datatype Result<T> = Ok(value: T) | Err

  datatype Arg = Arg(key: string, value: string)

  // ---------------------------------------------------------------- tokens

  /** Both scanners follow quotes and escapes in the same way. */
  datatype Mode = Plain | Quoted | Escaped

  function Next(mode: Mode, c: char): Mode {
    match mode
    case Escaped => Quoted
    case Quoted => if c == '\\' then Escaped else if c == '"' then Plain else Quoted
    case Plain => if c == '"' then Quoted else Plain
  }

  function Flush(current: string): seq<string> { if current == "" then [] else [current] }

  /** The tokens of the rest of the input. */
  function Tokens(input: string, mode: Mode, current: string): Result<seq<string>>
    decreases |input|
  {
    if input == "" then
      if mode.Plain? then Ok(Flush(current)) else Err
    else if mode.Plain? && IsWhiteSpace(input[0]) then
      var rest := Tokens(input[1..], mode, "");
      if rest.Ok? then Ok(Flush(current) + rest.value) else Err
    else Tokens(input[1..], Next(mode, input[0]), current + [input[0]])
  }

  method Tokenize(input: string) returns (r: Result<seq<string>>)
    ensures r == Tokens(input, Plain, "")
  {
    var tokens, current := [], "";
    var inQuote, escaped := false, false;
    assert input[0..] == input;
    NothingBefore(Tokens(input, Plain, ""));
    for i := 0 to |input|
      invariant escaped ==> inQuote
      invariant Prefixed(tokens, Tokens(input[i..], ModeOf(inQuote, escaped), current)) == Tokens(input, Plain, "")
    {
      var ch := input[i];
      assert input[i..][0] == ch && input[i..][1..] == input[i + 1..];
      if escaped {
        current := current + [ch];
        escaped := false;
      } else if ch == '\\' && inQuote {
        current := current + [ch];
        escaped := true;
      } else if ch == '"' {
        inQuote := !inQuote;
        current := current + [ch];
      } else if IsWhiteSpace(ch) && !inQuote {
        PrefixedTwice(tokens, Flush(current), Tokens(input[i + 1..], Plain, ""));
        assert tokens + [] == tokens;
        if |current| > 0 {
          tokens := tokens + [current];
          current := "";
        }
      } else {
        current := current + [ch];
      }
    }
    if inQuote { return Err; }
    assert tokens + [] == tokens;
    if |current| > 0 { tokens := tokens + [current]; }
    r := Ok(tokens);
  }

  function ModeOf(inQuote: bool, escaped: bool): Mode {
    if escaped then Escaped else if inQuote then Quoted else Plain
  }

  function Prefixed(tokens: seq<string>, r: Result<seq<string>>): Result<seq<string>> {
    if r.Ok? then Ok(tokens + r.value) else Err
  }

  lemma {:induction false} NothingBefore(r: Result<seq<string>>)
    ensures Prefixed([], r) == r
  {
    if r.Ok? { assert [] + r.value == r.value; }
  }

  lemma {:induction false} PrefixedTwice(a: seq<string>, b: seq<string>, r: Result<seq<string>>)
    ensures Prefixed(a, Prefixed(b, r)) == Prefixed(a + b, r)
  {
    if r.Ok? { assert a + (b + r.value) == a + b + r.value; }
  }

  // ---------------------------------------------------------------- key and value

  /** The index of the first separator outside quotes. */
  function CutAt(tok: string, sep: char, mode: Mode): (n: nat)
    ensures n <= |tok|
  {
    if tok == "" then 0
    else if mode.Plain? && tok[0] == sep && sep != '"' then 0
    else 1 + CutAt(tok[1..], sep, Next(mode, tok[0]))
  }

  method CutUnquoted(tok: string, sep: char) returns (key: string, value: string, found: bool)
    ensures var n := CutAt(tok, sep, Plain);
            found == (n < |tok|)
            && if found then key == tok[..n] && value == tok[n + 1..] else key == tok && value == ""
  {
    var inQuote, escaped := false, false;
    for i := 0 to |tok|
      invariant escaped ==> inQuote
      invariant CutAt(tok, sep, Plain) == i + CutAt(tok[i..], sep, ModeOf(inQuote, escaped))
    {
      var ch := tok[i];
      assert tok[i..][0] == ch && tok[i..][1..] == tok[i + 1..];
      if escaped {
        escaped := false;
      } else if ch == '\\' && inQuote {
        escaped := true;
      } else if ch == '"' {
        inQuote := !inQuote;
      } else if ch == sep && !inQuote {
        return tok[..i], tok[i + 1..], true;
      }
    }
    return tok, "", false;
  }

  /** The single-character escapes of a double-quoted Go string. */
  function Unescape(c: char): Result<char> {
    if c == '\\' || c == '"' then Ok(c)
    else if c == 'n' then Ok('\n')
    else if c == 't' then Ok('\t')
    else if c == 'r' then Ok('\r')
    else Err
  }

  /** The text between the quotes, up to the closing quote, which must be last. */
  function UnquoteBody(s: string): Result<string> {
    if s == "" || s[0] == '\n' then Err
    else if s[0] == '"' then if |s| == 1 then Ok("") else Err
    else if s[0] == '\\' then
      if |s| == 1 then Err
      else
        var c, rest := Unescape(s[1]), UnquoteBody(s[2..]);
        if c.Ok? && rest.Ok? then Ok([c.value] + rest.value) else Err
    else
      var rest := UnquoteBody(s[1..]);
      if rest.Ok? then Ok([s[0]] + rest.value) else Err
  }

  function Contains(s: string, c: char): bool { exists i :: 0 <= i < |s| && s[i] == c }

  /** One token as an argument. */
  function ArgOf(tok: string): Result<Arg> {
    var n := CutAt(tok, ':', Plain);
    if n == |tok| || n == 0 || Contains(tok[..n], '"') then Err
    else
      var key, value := tok[..n], tok[n + 1..];
      if value != "" && value[0] == '\'' then Err
      else if value != "" && value[0] == '"' then
        var v := UnquoteBody(value[1..]);
        if v.Ok? then Ok(Arg(key, v.value)) else Err
      else Ok(Arg(key, value))
  }

  function ArgsOf(toks: seq<string>): Result<seq<Arg>> {
    if toks == [] then Ok([])
    else
      var first, rest := ArgOf(toks[0]), ArgsOf(toks[1..]);
      if first.Ok? && rest.Ok? then Ok([first.value] + rest.value) else Err
  }

  function Scan(input: string): Result<seq<Arg>> {
    var toks := Tokens(input, Plain, "");
    if toks.Ok? then ArgsOf(toks.value) else Err
  }

  method ScanArgs(input: string) returns (r: Result<seq<Arg>>)
    ensures r == Scan(input)
  {
    var tokens := Tokenize(input);
    if tokens.Err? { return Err; }
    var args := [];
    assert tokens.value[0..] == tokens.value;
    if ArgsOf(tokens.value).Ok? { assert [] + ArgsOf(tokens.value).value == ArgsOf(tokens.value).value; }
    for i := 0 to |tokens.value|
      invariant ArgsOf(tokens.value) == Joined(args, ArgsOf(tokens.value[i..]))
    {
      var tok := tokens.value[i];
      var key, value, found := CutUnquoted(tok, ':');
      assert tokens.value[i..][0] == tok && tokens.value[i..][1..] == tokens.value[i + 1..];
      JoinedTwice(args, ArgOf(tok), ArgsOf(tokens.value[i + 1..]));
      if !found { return Err; }
      assert |tok| > CutAt(tok, ':', Plain);
      if key == "" { return Err; }
      if Contains(key, '"') { return Err; }
      if value != "" && value[0] == '\'' { return Err; }
      if value != "" && value[0] == '"' {
        var unquoted := UnquoteBody(value[1..]);
        if unquoted.Err? { return Err; }
        value := unquoted.value;
      }
      args := args + [Arg(key, value)];
    }
    assert tokens.value[|tokens.value|..] == [] && args + [] == args;
    r := Ok(args);
  }

  function Joined(args: seq<Arg>, r: Result<seq<Arg>>): Result<seq<Arg>> {
    if r.Ok? then Ok(args + r.value) else Err
  }

  lemma {:induction false} JoinedTwice(args: seq<Arg>, first: Result<Arg>, rest: Result<seq<Arg>>)
    ensures Joined(args, if first.Ok? && rest.Ok? then Ok([first.value] + rest.value) else Err)
         == if first.Ok? then Joined(args + [first.value], rest) else Err
  {
    if first.Ok? && rest.Ok? { assert args + ([first.value] + rest.value) == args + [first.value] + rest.value; }
  }

  // ---------------------------------------------------------------- printing

  function Escape(v: string): string {
    if v == "" then ""
    else
      var first := if v[0] == '\\' || v[0] == '"' then ['\\', v[0]] else if v[0] == '\n' then ['\\', 'n'] else [v[0]];
      first + Escape(v[1..])
  }

  /** An argument as it is written, with its value between quotes or bare. */
  datatype Written = Written(arg: Arg, quoted: bool)

  function PrintValue(w: Written): string {
    if w.quoted then "\"" + Escape(w.arg.value) + "\"" else w.arg.value
  }

  function PrintArg(w: Written): string { w.arg.key + ":" + PrintValue(w) }

  function Print(ws: seq<Written>): string {
    if ws == [] then "" else if |ws| == 1 then PrintArg(ws[0]) else PrintArg(ws[0]) + " " + Print(ws[1..])
  }

  function ArgsIn(ws: seq<Written>): (args: seq<Arg>)
    ensures |args| == |ws|
  {
    seq(|ws|, i requires 0 <= i < |ws| => ws[i].arg)
  }

  predicate PlainChar(c: char) { !IsWhiteSpace(c) && c != ':' && c != '"' }

  /** What can stand as a key: anything without blanks, colons and double quotes. */
  predicate ValidKey(k: string) { k != "" && forall i :: 0 <= i < |k| ==> PlainChar(k[i]) }

  /** What can stand as a value without quotes: no blanks and no double quotes, no single quote in front.
      Colons and backslashes are as good as other characters. */
  predicate BareValue(v: string) {
    (forall i :: 0 <= i < |v| ==> !IsWhiteSpace(v[i]) && v[i] != '"') && (v == "" || v[0] != '\'')
  }

  predicate CanBeWritten(w: Written) { ValidKey(w.arg.key) && (w.quoted || BareValue(w.arg.value)) }

  // ---------------------------------------------------------------- parsing what was printed

  lemma {:induction false} PlainRun(k: string, rest: string, current: string)
    requires forall i :: 0 <= i < |k| ==> !IsWhiteSpace(k[i]) && k[i] != '"'
    ensures Tokens(k + rest, Plain, current) == Tokens(rest, Plain, current + k)
    decreases |k|
  {
    if k == "" {
      assert k + rest == rest && current + k == current;
    } else {
      assert (k + rest)[1..] == k[1..] + rest;
      assert current + [k[0]] + k[1..] == current + k;
      PlainRun(k[1..], rest, current + [k[0]]);
    }
  }

  /** An escaped value is one run inside quotes, blanks and colons included. */
  lemma {:induction false} EscapedRun(v: string, rest: string, current: string)
    ensures Tokens(Escape(v) + rest, Quoted, current) == Tokens(rest, Quoted, current + Escape(v))
    decreases |v|
  {
    if v == "" {
      assert Escape(v) + rest == rest && current + Escape(v) == current;
    } else {
      var tail := Escape(v[1..]);
      var head := if v[0] == '\\' || v[0] == '"' then ['\\', v[0]] else if v[0] == '\n' then ['\\', 'n'] else [v[0]];
      assert Escape(v) + rest == head + (tail + rest);
      assert current + head + tail == current + Escape(v);
      EscapedRun(v[1..], rest, current + head);
      if |head| == 2 {
        var s := head + (tail + rest);
        assert s[1..][1..] == tail + rest;
        assert current + [head[0]] + [head[1]] == current + head;
      } else {
        assert (head + (tail + rest))[1..] == tail + rest;
        assert current + [head[0]] == current + head;
      }
    }
  }

  /** A quoted value is read up to its closing quote. */
  lemma {:induction false} ValueRun(v: string, rest: string, current: string)
    ensures Tokens(['"'] + (Escape(v) + (['"'] + rest)), Plain, current)
            == Tokens(rest, Plain, current + ['"'] + Escape(v) + ['"'])
  {
    EscapedRun(v, ['"'] + rest, current + ['"']);
  }

  /** A printed argument is one token. */
  lemma {:induction false} ArgRun(w: Written, rest: string)
    requires CanBeWritten(w)
    ensures Tokens(PrintArg(w) + rest, Plain, "") == Tokens(rest, Plain, PrintArg(w))
  {
    var k, v := w.arg.key, w.arg.value;
    if w.quoted {
      Regroup(k, [':'], ['"'], Escape(v), ['"'], rest);
      PlainRun(k, [':'] + (['"'] + (Escape(v) + (['"'] + rest))), "");
      ValueRun(v, rest, "" + k + [':']);
      assert "" + k == k;
    } else {
      PlainRun(PrintArg(w), rest, "");
      assert "" + PrintArg(w) == PrintArg(w);
    }
  }

  lemma {:induction false} Regroup(k: string, colon: string, open: string, e: string, close: string, rest: string)
    ensures k + colon + (open + e + close) + rest == k + (colon + (open + (e + (close + rest))))
    ensures k + colon + (open + e + close) == k + colon + open + e + close
  {
    assert open + e + close + rest == open + (e + (close + rest));
    assert k + colon + (open + e + close) + rest == k + (colon + (open + e + close + rest));
  }

  function PrintEach(ws: seq<Written>): seq<string> {
    if ws == [] then [] else [PrintArg(ws[0])] + PrintEach(ws[1..])
  }

  lemma {:induction false} PrintedTokens(ws: seq<Written>)
    requires forall w :: w in ws ==> CanBeWritten(w)
    ensures Tokens(Print(ws), Plain, "") == Ok(PrintEach(ws))
    decreases |ws|
  {
    if ws != [] {
      var first := PrintArg(ws[0]);
      if |ws| == 1 {
        ArgRun(ws[0], "");
        assert first + "" == first && ws[1..] == [];
        assert Flush(first) == [first] + PrintEach(ws[1..]);
      } else {
        var rest := " " + Print(ws[1..]);
        assert first + rest == Print(ws) && rest[1..] == Print(ws[1..]);
        ArgRun(ws[0], rest);
        PrintedTokens(ws[1..]);
      }
    }
  }

  lemma {:induction false} UnquoteEscape(v: string)
    ensures UnquoteBody(Escape(v) + "\"") == Ok(v)
    decreases |v|
  {
    if v != "" {
      var tail := Escape(v[1..]) + "\"";
      UnquoteEscape(v[1..]);
      assert v == [v[0]] + v[1..];
      if v[0] == '\\' || v[0] == '"' {
        assert Escape(v) + "\"" == ['\\', v[0]] + tail;
        assert (['\\', v[0]] + tail)[2..] == tail;
      } else if v[0] == '\n' {
        assert Escape(v) + "\"" == ['\\', 'n'] + tail;
        assert (['\\', 'n'] + tail)[2..] == tail;
      } else {
        assert Escape(v) + "\"" == [v[0]] + tail;
        assert ([v[0]] + tail)[1..] == tail;
      }
    }
  }

  lemma {:induction false} CutKey(k: string, rest: string)
    requires forall i :: 0 <= i < |k| ==> PlainChar(k[i])
    ensures CutAt(k + (":" + rest), ':', Plain) == |k|
    decreases |k|
  {
    if k == "" {
      assert k + (":" + rest) == ":" + rest;
    } else {
      assert (k + (":" + rest))[1..] == k[1..] + (":" + rest);
      CutKey(k[1..], rest);
    }
  }

  lemma {:induction false} ArgParts(key: string, value: string)
    ensures var tok := key + ":" + value; tok == key + (":" + value) && tok[..|key|] == key && tok[|key| + 1..] == value
  {
  }

  lemma {:induction false} ArgRoundTrip(w: Written)
    requires CanBeWritten(w)
    ensures ArgOf(PrintArg(w)) == Ok(w.arg)
  {
    var value := PrintValue(w);
    ArgParts(w.arg.key, value);
    CutKey(w.arg.key, value);
    if w.quoted {
      assert value[1..] == Escape(w.arg.value) + "\"";
      UnquoteEscape(w.arg.value);
    }
  }

  /** Writing arguments, each with quotes or, where that can be done, without, and scanning the text
      gives the same arguments, whatever the values. */
  lemma {:induction false} PrintScan(ws: seq<Written>)
    requires forall w :: w in ws ==> CanBeWritten(w)
    ensures Scan(Print(ws)) == Ok(ArgsIn(ws))
  {
    PrintedTokens(ws);
    AllRoundTrip(ws);
  }

  lemma {:induction false} AllRoundTrip(ws: seq<Written>)
    requires forall w :: w in ws ==> CanBeWritten(w)
    ensures ArgsOf(PrintEach(ws)) == Ok(ArgsIn(ws))
    decreases |ws|
  {
    if ws != [] {
      var w, rest := ws[0], ws[1..];
      AllRoundTrip(rest);
      ArgRoundTrip(w);
      assert ArgsIn(ws) == [w.arg] + ArgsIn(rest);
    }
  }

  // ---------------------------------------------------------------- what is not accepted

  lemma {:induction false} CutPlain(tok: string, n: nat)
    requires n <= |tok| && (forall i :: 0 <= i < n ==> tok[i] != ':' && tok[i] != '"') && (n < |tok| ==> tok[n] == ':')
    ensures CutAt(tok, ':', Plain) == n
    decreases n
  {
    if n > 0 { CutPlain(tok[1..], n - 1); }
  }

  /** A token without double quotes, cut at its first colon at n, or without a colon if n is its length:
      it is an argument exactly when there is a colon, not in front, and no single quote behind it. */
  lemma {:induction false} BareArg(tok: string, n: nat)
    requires n <= |tok| && (forall i :: 0 <= i < |tok| ==> tok[i] != '"')
    requires (forall i :: 0 <= i < n ==> tok[i] != ':') && (n < |tok| ==> tok[n] == ':')
    ensures ArgOf(tok) ==
            if 0 < n < |tok| && !HasPrefix(tok[n + 1..], "'") then Ok(Arg(tok[..n], tok[n + 1..])) else Err
  {
    CutPlain(tok, n);
  }

  /** A double quote in front of the first colon is an error, whatever follows. */
  lemma {:induction false} QuotedKeyFails(k: string, rest: string)
    requires forall i :: 0 <= i < |k| ==> k[i] != ':' && k[i] != '"'
    ensures ArgOf(k + "\"" + rest) == Err
  {
    var tok := k + "\"" + rest;
    CutBehind(k, rest);
    var n := CutAt(tok, ':', Plain);
    if n < |tok| { assert tok[..n][|k|] == '"'; }
  }

  lemma {:induction false} CutBehind(k: string, rest: string)
    requires forall i :: 0 <= i < |k| ==> k[i] != ':' && k[i] != '"'
    ensures CutAt(k + "\"" + rest, ':', Plain) > |k|
    decreases |k|
  {
    if k != "" {
      assert (k + "\"" + rest)[1..] == k[1..] + "\"" + rest;
      CutBehind(k[1..], rest);
    }
  }

  /** Any blank separates, and any number of them; text in which a quote stays open is an error. */
  lemma {:induction false} BlankSeparates(c: char, rest: string, current: string)
    requires IsWhiteSpace(c)
    ensures Tokens([c] + rest, Plain, current) == Prefixed(Flush(current), Tokens(rest, Plain, ""))
    ensures Tokens([c] + rest, Quoted, current) == Tokens(rest, Quoted, current + [c])
  {
    assert ([c] + rest)[1..] == rest;
  }

  lemma {:induction false} OpenQuoteFails(body: string, current: string)
    requires forall i :: 0 <= i < |body| ==> body[i] != '"' && body[i] != '\\'
    ensures Tokens(body, Quoted, current) == Err
    decreases |body|
  {
    if body != "" { OpenQuoteFails(body[1..], current + [body[0]]); }
  }
}
