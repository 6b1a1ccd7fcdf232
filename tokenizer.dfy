/** The first half of `parse_docker_command`: the input is cleaned (line
    continuations become spaces, whitespace runs collapse to one space),
    the leading `docker run`-style prefix is removed, and a character
    scanner splits the rest into shell-like tokens. */
module Tokenizer {
  import opened Strings
  import Mappings

  // ---------------------------------------------------------------------
  // Preprocessing

  /** The input trimmed, with backslash-newline, backslash-CRLF and bare
      newlines replaced by a space, then re-joined from its whitespace
      separated words with single spaces. */
  function Clean(input: string): (r: string)
    ensures IsCollapsed(r)
    ensures SplitWhitespace(r) == SplitWhitespace(JoinLines(input))
  {
    var words := SplitWhitespace(JoinLines(input));
    JoinWordsCollapsed(words);
    SplitWhitespaceJoin(words);
    Join(words, " ")
  }

  /** Words joined with single spaces split back into the same words. */
  lemma {:induction false} SplitWhitespaceJoin(ws: seq<string>)
    requires forall i :: 0 <= i < |ws| ==> IsWord(ws[i])
    ensures SplitWhitespace(Join(ws, " ")) == ws
  {
    if |ws| == 1 {
      SplitWhitespaceWord(ws[0], []);
      assert ws[0] + [] == ws[0];
    } else if |ws| > 1 {
      var j := Join(ws[1..], " ");
      SplitWhitespaceJoin(ws[1..]);
      assert ws[0] + " " + j == ws[0] + ([' '] + j);
      SplitWhitespaceWord(ws[0], [' '] + j);
      SplitWhitespaceSkip(' ', j);
    }
  }

  /** The trimmed input with its line breaks, escaped or not, replaced by
      spaces. */
  function JoinLines(input: string): string {
    ReplaceAll(ReplaceAll(ReplaceAll(Trim(input), "\\\n", " "), "\\\r\n", " "), "\n", " ")
  }

  /** `a \<newline> b` is read as `a b`: a line continuation between two
      backslash-free parts is one space. */
  lemma CleanContinuation(a: string, b: string)
    requires '\\' !in a && '\\' !in b
    requires a != [] && !IsWhitespace(a[0])
    requires b != [] && !IsWhitespace(b[|b| - 1])
    ensures Clean(a + "\\\n" + b) == Clean(a + " " + b)
  {
    JoinLinesContinuation(a, b);
  }

  lemma JoinLinesContinuation(a: string, b: string)
    requires '\\' !in a && '\\' !in b
    requires a != [] && !IsWhitespace(a[0])
    requires b != [] && !IsWhitespace(b[|b| - 1])
    ensures JoinLines(a + "\\\n" + b) == JoinLines(a + " " + b)
  {
    var s, t := a + "\\\n" + b, a + " " + b;
    TrimNoop(s);
    TrimNoop(t);
    assert "\\\n" == "\\" + "\n";
    ReplaceAllOnce(a, b, "\\\n", " ");
    ReplaceAllAbsent(t, "\\\n", " ");
  }

  /** The same holds for the Windows form, backslash-CRLF. */
  lemma CleanContinuationCrlf(a: string, b: string)
    requires '\\' !in a && '\\' !in b
    requires a != [] && !IsWhitespace(a[0])
    requires b != [] && !IsWhitespace(b[|b| - 1])
    ensures Clean(a + "\\\r\n" + b) == Clean(a + " " + b)
  {
    JoinLinesContinuationCrlf(a, b);
  }

  lemma JoinLinesContinuationCrlf(a: string, b: string)
    requires '\\' !in a && '\\' !in b
    requires a != [] && !IsWhitespace(a[0])
    requires b != [] && !IsWhitespace(b[|b| - 1])
    ensures JoinLines(a + "\\\r\n" + b) == JoinLines(a + " " + b)
  {
    var s, t := a + "\\\r\n" + b, a + " " + b;
    TrimNoop(s);
    TrimNoop(t);
    ReplaceAllSkipsCr(a, b);
    ReplaceAllOnce(a, b, "\\\r\n", " ");
    ReplaceAllAbsent(t, "\\\n", " ");
    ReplaceAllAbsent(t, "\\\r\n", " ");
  }

  /** Replacing backslash-newline leaves a backslash-CRLF alone. */
  lemma {:induction false} ReplaceAllSkipsCr(a: string, b: string)
    requires '\\' !in a && '\\' !in b
    ensures ReplaceAll(a + "\\\r\n" + b, "\\\n", " ") == a + "\\\r\n" + b
    decreases |a|
  {
    var s := a + "\\\r\n" + b;
    if a == [] {
      assert s[..2] == "\\\r" != "\\\n";
      assert s[1..] == "\r\n" + b;
      ReplaceAllAbsent("\r\n" + b, "\\\n", " ");
    } else {
      assert s[..2][0] == a[0] != '\\';
      assert s[1..] == a[1..] + "\\\r\n" + b;
      ReplaceAllSkipsCr(a[1..], b);
    }
  }

  /** The command prefixes the source's pattern
      `^(docker|podman)\s+(run|create|container\s+run|service\s+create)\s+`
      matches once every whitespace run is a single space. */
  const CommandPrefixes: seq<string> := [
    "docker run ", "docker create ", "docker container run ", "docker service create ",
    "podman run ", "podman create ", "podman container run ", "podman service create "
  ]

  /** The string without the first prefix of `prefixes` it starts with. */
  function StripFirst(s: string, prefixes: seq<string>): (r: string)
    ensures forall i :: (0 <= i < |prefixes| && StartsWith(s, prefixes[i])
                         && (forall j :: 0 <= j < i ==> !StartsWith(s, prefixes[j]))) ==> r == s[|prefixes[i]|..]
    ensures (forall i :: 0 <= i < |prefixes| ==> !StartsWith(s, prefixes[i])) ==> r == s
  {
    if prefixes == [] then s
    else if StartsWith(s, prefixes[0]) then s[|prefixes[0]|..]
    else StripFirst(s, prefixes[1..])
  }

  /** The cleaned command without its `docker run`-style prefix, which is
      removed only when something follows it. */
  function StripCommandPrefix(s: string): string {
    StripFirst(s, CommandPrefixes)
  }

  /** At most one prefix applies, so the result is the text after it. */
  lemma StripCommandPrefixAfter(p: string, rest: string)
    requires p in CommandPrefixes
    ensures StripCommandPrefix(p + rest) == rest
  {
    var s := p + rest;
    var i :| 0 <= i < |CommandPrefixes| && CommandPrefixes[i] == p;
    assert s[..|p|] == p;
    forall j | 0 <= j < i ensures !StartsWith(s, CommandPrefixes[j]) {
      var q := CommandPrefixes[j];
      if StartsWith(s, q) {
        assert q[..|q|] == s[..|q|];
        PrefixesDisjoint(j, i);
        assert false;
      }
    }
    assert s[|p|..] == rest;
  }

  /** No prefix of the list starts another: they differ at a position both
      have. */
  lemma PrefixesDisjoint(j: nat, i: nat)
    requires j < i < |CommandPrefixes|
    ensures exists k :: 0 <= k < |CommandPrefixes[j]| && k < |CommandPrefixes[i]|
                        && CommandPrefixes[j][k] != CommandPrefixes[i][k]
  {
    var a, b := CommandPrefixes[j], CommandPrefixes[i];
    if a[0] != b[0] {
    } else if a[7] != b[7] {
    } else {
      assert a[8] != b[8];
    }
  }

  /** A bare `docker run` has no space after it and stays as it is. */
  lemma StripCommandPrefixBare()
    ensures StripCommandPrefix("docker run") == "docker run"
  {
  }

  // ---------------------------------------------------------------------
  // The scanner

  /** The scanner's state: the finished tokens, the token being built, and
      whether it is inside a quote, and which quote character opened it. */
  datatype ScanState = ScanState(tokens: seq<string>, current: string, inQuotes: bool, quoteChar: char)

  const Start: ScanState := ScanState([], [], false, ' ')

  /** The state after scanning `s` from `st`: a backslash appends the next
      character as it is (a trailing backslash is dropped); an opening quote
      and its matching closing quote are appended and switch the quote
      state; whitespace outside quotes ends the current token; any other
      character is appended. */
  function Scan(s: string, st: ScanState): ScanState
    decreases |s|
  {
    if s == [] then st
    else
      var c := s[0];
      if c == '\\' then
        if |s| == 1 then st else Scan(s[2..], st.(current := st.current + [s[1]]))
      else if Mappings.IsQuote(c) && !st.inQuotes then
        Scan(s[1..], st.(current := st.current + [c], inQuotes := true, quoteChar := c))
      else if c == st.quoteChar && st.inQuotes then
        Scan(s[1..], st.(current := st.current + [c], inQuotes := false))
      else if IsWhitespace(c) && !st.inQuotes then
        Scan(s[1..], if st.current != [] then st.(tokens := st.tokens + [st.current], current := []) else st)
      else
        Scan(s[1..], st.(current := st.current + [c]))
  }

  /** The finished tokens plus a non-empty last one, quoted or not. */
  function Flush(st: ScanState): seq<string> {
    if st.current != [] then st.tokens + [st.current] else st.tokens
  }

  function Tokenize(s: string): seq<string> {
    Flush(Scan(s, Start))
  }

  /** The scanning loop of `parse_docker_command`, over the state that the
      source keeps in `tokens`, `current`, `in_quotes` and `quote_char`. */
  method ScanTokens(cleaned: string) returns (tokens: seq<string>)
    ensures tokens == Tokenize(cleaned)
  {
    tokens := [];
    var current := "";
    var inQuotes := false;
    var quoteChar := ' ';
    var i := 0;
    while i < |cleaned|
      invariant 0 <= i <= |cleaned|
      invariant Scan(cleaned[i..], ScanState(tokens, current, inQuotes, quoteChar)) == Scan(cleaned, Start)
    {
      var ch := cleaned[i];
      assert cleaned[i..][0] == ch;
      if ch == '\\' {
        if i + 1 < |cleaned| {
          assert cleaned[i..][2..] == cleaned[i + 2..];
          current := current + [cleaned[i + 1]];
          i := i + 2;
        } else {
          assert cleaned[i..] == [ch];
          i := i + 1;
          assert Scan(cleaned[i..], ScanState(tokens, current, inQuotes, quoteChar)) == Scan(cleaned, Start);
        }
      } else {
        assert cleaned[i..][1..] == cleaned[i + 1..];
        if (ch == '"' || ch == '\'') && !inQuotes {
          inQuotes := true;
          quoteChar := ch;
          current := current + [ch];
        } else if ch == quoteChar && inQuotes {
          inQuotes := false;
          current := current + [ch];
        } else if IsWhitespace(ch) && !inQuotes {
          if current != [] {
            tokens := tokens + [current];
            current := [];
          }
        } else {
          current := current + [ch];
        }
        i := i + 1;
      }
    }
    if current != [] {
      tokens := tokens + [current];
    }
  }

  // ---------------------------------------------------------------------
  // Properties of the scanner

  predicate NonEmptyAll(ts: seq<string>) {
    forall i :: 0 <= i < |ts| ==> ts[i] != []
  }

  lemma {:induction false} ScanNonEmpty(s: string, st: ScanState)
    requires NonEmptyAll(st.tokens)
    ensures NonEmptyAll(Scan(s, st).tokens)
    decreases |s|
  {
    if s != [] {
      var c := s[0];
      if c == '\\' {
        if |s| > 1 {
          ScanNonEmpty(s[2..], st.(current := st.current + [s[1]]));
        }
      } else if Mappings.IsQuote(c) && !st.inQuotes {
        ScanNonEmpty(s[1..], st.(current := st.current + [c], inQuotes := true, quoteChar := c));
      } else if c == st.quoteChar && st.inQuotes {
        ScanNonEmpty(s[1..], st.(current := st.current + [c], inQuotes := false));
      } else if IsWhitespace(c) && !st.inQuotes {
        ScanNonEmpty(s[1..], if st.current != [] then st.(tokens := st.tokens + [st.current], current := []) else st);
      } else {
        ScanNonEmpty(s[1..], st.(current := st.current + [c]));
      }
    }
  }

  /** No token is empty. */
  lemma TokensNonEmpty(s: string)
    ensures NonEmptyAll(Tokenize(s))
  {
    ScanNonEmpty(s, Start);
  }

  /** Text without quotes or backslashes. */
  predicate Plain(s: string) {
    forall i :: 0 <= i < |s| ==> s[i] != '\\' && !Mappings.IsQuote(s[i])
  }

  lemma {:induction false} WordLenWord(w: string, t: string)
    requires forall i :: 0 <= i < |w| ==> !IsWhitespace(w[i])
    requires t == [] || IsWhitespace(t[0])
    ensures WordLen(w + t) == |w|
    decreases |w|
  {
    if w != [] {
      assert (w + t)[1..] == w[1..] + t;
      WordLenWord(w[1..], t);
    }
  }

  lemma SplitWhitespaceSkip(c: char, s: string)
    requires IsWhitespace(c)
    ensures SplitWhitespace([c] + s) == SplitWhitespace(s)
  {
    assert ([c] + s)[1..] == s;
  }

  /** A word followed by whitespace is the first piece. */
  lemma SplitWhitespaceWord(w: string, t: string)
    requires IsWord(w)
    requires t == [] || IsWhitespace(t[0])
    ensures SplitWhitespace(w + t) == [w] + SplitWhitespace(t)
  {
    var s := w + t;
    assert TrimStart(s) == s;
    WordLenWord(w, t);
    assert s[..|w|] == w && s[|w|..] == t;
  }

  /** Outside quotes, an ordinary character is appended to the token. */
  lemma ScanOrdinary(s: string, st: ScanState)
    requires s != [] && s[0] != '\\' && !Mappings.IsQuote(s[0]) && !IsWhitespace(s[0]) && !st.inQuotes
    ensures Scan(s, st) == Scan(s[1..], st.(current := st.current + [s[0]]))
  {
  }

  /** Outside quotes, whitespace ends a non-empty token. */
  lemma ScanSpace(s: string, st: ScanState)
    requires s != [] && IsWhitespace(s[0]) && !st.inQuotes
    ensures Scan(s, st) == Scan(s[1..], if st.current != [] then st.(tokens := st.tokens + [st.current], current := []) else st)
  {
  }

  /** Outside quotes, on plain text, the scanner splits at whitespace as
      `split_whitespace` does, gluing its first word to the token it is
      building. */
  lemma {:induction false} ScanPlain(s: string, st: ScanState)
    requires Plain(s) && !st.inQuotes
    requires forall i :: 0 <= i < |st.current| ==> !IsWhitespace(st.current[i])
    ensures Flush(Scan(s, st)) == st.tokens + SplitWhitespace(st.current + s)
    decreases |s|, 1
  {
    var cur := st.current;
    if s == [] {
      ConcatEmpty(cur);
      if cur != [] {
        SplitWhitespaceWord(cur, []);
        ConcatEmpty([cur]);
      }
    } else if IsWhitespace(s[0]) {
      ScanPlainSpace(s, st);
    } else {
      ScanPlainOrdinary(s, st);
    }
  }

  lemma {:induction false} ScanPlainSpace(s: string, st: ScanState)
    requires Plain(s) && !st.inQuotes && s != [] && IsWhitespace(s[0])
    requires forall i :: 0 <= i < |st.current| ==> !IsWhitespace(st.current[i])
    ensures Flush(Scan(s, st)) == st.tokens + SplitWhitespace(st.current + s)
    decreases |s|, 0
  {
    var cur, c, rest := st.current, s[0], s[1..];
    assert Plain(rest);
    assert s == [c] + rest;
    ScanSpace(s, st);
    if cur == [] {
      ScanPlain(rest, st);
      assert cur + rest == rest && cur + s == s;
      SplitWhitespaceSkip(c, rest);
    } else {
      var st' := st.(tokens := st.tokens + [cur], current := []);
      ScanPlain(rest, st');
      assert st'.current + rest == rest;
      PlainWordEnds(c, rest, cur, st.tokens);
    }
  }

  lemma {:induction false} ScanPlainOrdinary(s: string, st: ScanState)
    requires Plain(s) && !st.inQuotes && s != [] && !IsWhitespace(s[0])
    requires forall i :: 0 <= i < |st.current| ==> !IsWhitespace(st.current[i])
    ensures Flush(Scan(s, st)) == st.tokens + SplitWhitespace(st.current + s)
    decreases |s|, 0
  {
    var cur, c, rest := st.current, s[0], s[1..];
    assert Plain(rest);
    assert !Mappings.IsQuote(c) && c != '\\';
    ScanOrdinary(s, st);
    var st' := st.(current := cur + [c]);
    ScanPlain(rest, st');
    assert s == [c] + rest;
    ConcatAssoc(cur, [c], rest);
    assert st'.current + rest == cur + s;
  }

  /** Whitespace after a word ends it. */
  lemma PlainWordEnds(c: char, rest: string, cur: string, toks: seq<string>)
    requires IsWhitespace(c) && IsWord(cur)
    ensures toks + [cur] + SplitWhitespace(rest) == toks + SplitWhitespace(cur + ([c] + rest))
  {
    SplitWhitespaceWord(cur, [c] + rest);
    SplitWhitespaceSkip(c, rest);
    ConcatAssoc(toks, [cur], SplitWhitespace(rest));
  }

  lemma ConcatAssoc<T>(a: seq<T>, b: seq<T>, c: seq<T>)
    ensures a + b + c == a + (b + c)
  {
  }

  lemma ConcatEmpty<T>(a: seq<T>)
    ensures a + [] == a && [] + a == a
  {
  }

  /** On text without quotes or backslashes the tokens are exactly the
      whitespace-separated words. */
  lemma TokenizePlain(s: string)
    requires Plain(s)
    ensures Tokenize(s) == SplitWhitespace(s)
  {
    ScanPlain(s, Start);
    assert [] + s == s;
  }

  /** Inside a quoted span, text without backslashes and without the
      opening quote character (the other quote character and whitespace
      included) is appended to the token as it is. */
  lemma {:induction false} ScanQuoted(body: string, rest: string, st: ScanState)
    requires st.inQuotes
    requires forall i :: 0 <= i < |body| ==> body[i] != '\\' && body[i] != st.quoteChar
    ensures Scan(body + rest, st) == Scan(rest, st.(current := st.current + body))
    decreases |body|
  {
    if body == [] {
      assert body + rest == rest && st.current + body == st.current;
    } else {
      var c := body[0];
      assert (body + rest)[0] == c && (body + rest)[1..] == body[1..] + rest;
      ScanQuoted(body[1..], rest, st.(current := st.current + [c]));
      assert st.current + [c] + body[1..] == st.current + body;
    }
  }

  /** An opening quote outside quotes is appended and starts a span. */
  lemma ScanOpen(s: string, st: ScanState)
    requires s != [] && Mappings.IsQuote(s[0]) && !st.inQuotes
    ensures Scan(s, st) == Scan(s[1..], ScanState(st.tokens, st.current + [s[0]], true, s[0]))
  {
  }

  /** The quote that opened the span is appended and ends it. */
  lemma ScanClose(s: string, st: ScanState)
    requires s != [] && s[0] == st.quoteChar && s[0] != '\\' && st.inQuotes
    ensures Scan(s, st) == Scan(s[1..], ScanState(st.tokens, st.current + [s[0]], false, st.quoteChar))
  {
  }

  /** A backslash appends the character after it, whatever it is. */
  lemma ScanEscape(s: string, st: ScanState)
    requires |s| >= 2 && s[0] == '\\'
    ensures Scan(s, st) == Scan(s[2..], st.(current := st.current + [s[1]]))
  {
  }

  /** A quoted span, spaces and all, is one token that keeps its quotes;
      without its closing quote it runs to the end of the input. */
  lemma TokenizeQuoted(q: char, body: string)
    requires Mappings.IsQuote(q)
    requires forall i :: 0 <= i < |body| ==> body[i] != '\\' && body[i] != q
    ensures Tokenize([q] + body + [q]) == [[q] + body + [q]]
    ensures Tokenize([q] + body) == [[q] + body]
  {
    var st := ScanState([], [q], true, q);
    assert Start.current + [q] == [q];
    var closed := [q] + body + [q];
    assert closed[0] == q && closed[1..] == body + [q];
    ScanOpen(closed, Start);
    ScanQuoted(body, [q], st);
    ScanClose([q], st.(current := [q] + body));
    assert [q][1..] == [];
    var open := [q] + body;
    assert open[0] == q && open[1..] == body + [];
    ScanOpen(open, Start);
    ScanQuoted(body, [], st);
  }

  /** An escaped space does not end the token, and the backslash is not
      kept. */
  lemma TokenizeEscapedSpace()
    ensures Tokenize("a\\ b") == ["a b"]
  {
    var s := "a\\ b";
    assert [] + ['a'] == "a" && "a" + [' '] == "a " && "a " + ['b'] == "a b";
    ScanOrdinary(s, Start);
    assert s[1..] == "\\ b" && s[1..][2..] == "b";
    ScanEscape(s[1..], ScanState([], "a", false, ' '));
    ScanOrdinary("b", ScanState([], "a ", false, ' '));
    assert "b"[1..] == [];
  }

  /** A word without whitespace, quotes or backslashes (possibly empty). */
  predicate Bare(w: string) {
    Plain(w) && forall i :: 0 <= i < |w| ==> !IsWhitespace(w[i])
  }

  /** Outside quotes, a bare word is appended to the token as it is. */
  lemma {:induction false} ScanBare(w: string, rest: string, st: ScanState)
    requires Bare(w) && !st.inQuotes
    ensures Scan(w + rest, st) == Scan(rest, st.(current := st.current + w))
    decreases |w|
  {
    if w == [] {
      assert w + rest == rest && st.current + w == st.current;
    } else {
      var c := w[0];
      assert (w + rest)[0] == c && (w + rest)[1..] == w[1..] + rest;
      assert Bare(w[1..]);
      ScanOrdinary(w + rest, st);
      ScanBare(w[1..], rest, st.(current := st.current + [c]));
      assert st.current + [c] + w[1..] == st.current + w;
    }
  }

  /** The state after one character other than a backslash. */
  function Step(c: char, st: ScanState): ScanState {
    if Mappings.IsQuote(c) && !st.inQuotes then st.(current := st.current + [c], inQuotes := true, quoteChar := c)
    else if c == st.quoteChar && st.inQuotes then st.(current := st.current + [c], inQuotes := false)
    else if IsWhitespace(c) && !st.inQuotes then
      (if st.current != [] then st.(tokens := st.tokens + [st.current], current := []) else st)
    else st.(current := st.current + [c])
  }

  lemma ScanStep(s: string, st: ScanState)
    requires s != [] && s[0] != '\\'
    ensures Scan(s, st) == Scan(s[1..], Step(s[0], st))
  {
  }

  /** Without a backslash in `s`, scanning `s + t` is scanning `s`, then
      going on with `t`. */
  lemma {:induction false} ScanConcat(s: string, t: string, st: ScanState)
    requires '\\' !in s
    ensures Scan(s + t, st) == Scan(t, Scan(s, st))
    decreases |s|
  {
    if s == [] {
      assert s + t == t;
    } else {
      assert (s + t)[0] == s[0] && (s + t)[1..] == s[1..] + t;
      ScanStep(s + t, st);
      ScanStep(s, st);
      ScanConcat(s[1..], t, Step(s[0], st));
    }
  }

  /** A backslash keeps the character after it, whatever it is, inside the
      surrounding word, and is itself dropped. */
  lemma TokenizeEscape(a: string, c: char, b: string)
    requires Bare(a) && Bare(b)
    ensures Tokenize(a + ['\\', c] + b) == [a + [c] + b]
  {
    assert a + ['\\', c] + b == a + (['\\', c] + (b + []));
    ScanEscapedWord(a, c, b, []);
    assert [] + [a + [c] + b] == [a + [c] + b];
  }

  /** Scanning a bare word with one escaped character in it, from the
      start, leaves that word, backslash dropped, as the current token. */
  lemma ScanEscapedWord(a: string, c: char, b: string, t: string)
    requires Bare(a) && Bare(b)
    ensures Scan(a + (['\\', c] + (b + t)), Start) == Scan(t, Start.(current := a + [c] + b))
  {
    var st1 := Start.(current := [] + a);
    ScanBare(a, ['\\', c] + (b + t), Start);
    assert (['\\', c] + (b + t))[2..] == b + t;
    var st2 := st1.(current := st1.current + [c]);
    ScanBare(b, t, st2);
    assert st2.current + b == a + [c] + b;
  }

  /** An escaped quote is an ordinary character: it opens no quoted span,
      so the token ends at the next space and the words after it are
      split as usual. */
  lemma TokenizeEscapedQuote(a: string, q: char, b: string, d: string)
    requires Mappings.IsQuote(q) && Bare(a) && Bare(b) && Plain(d)
    ensures Tokenize(a + ['\\', q] + b + " " + d) == [a + [q] + b] + SplitWhitespace(d)
  {
    var s := a + ['\\', q] + b + " " + d;
    var tok := a + [q] + b;
    assert s == a + (['\\', q] + (b + ([' '] + d)));
    ScanEscapedWord(a, q, b, [' '] + d);
    ScanSpace([' '] + d, Start.(current := tok));
    assert ([' '] + d)[1..] == d;
    var st4 := ScanState([tok], [], false, ' ');
    assert [] + [tok] == [tok];
    ScanPlain(d, st4);
    assert [] + d == d;
  }

  /** A trailing lone backslash is dropped: after backslash-free text it
      changes nothing. */
  lemma TokenizeTrailingBackslash(s: string)
    requires '\\' !in s
    ensures Tokenize(s + "\\") == Tokenize(s)
  {
    ScanConcat(s, "\\", Start);
  }

}
