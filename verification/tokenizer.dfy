/**
 * The tokenizer of src/lib.rs: it splits an input line into words, honouring
 * single quotes, double quotes and backslash escapes.
 *
 * `Step` is one iteration of the scanning loop, `Scan` runs it over a string
 * and `Tokens` adds the final flush; the method `Tokenize` is the loop itself,
 * proved to compute `Tokens`.  The lemmas state what the scanner promises.
 */
module Tokenizer {
  import opened Words

  /** The loop's variables between two characters of the input. */
  datatype ScanState = ScanState(
    inSingle: bool,     // inside '...'
    inDouble: bool,     // inside "..."
    inBackslash: bool,  // the previous character was an unconsumed backslash
    current: string,    // the word being built
    args: seq<string>)  // the words completed so far

  const Start: ScanState := ScanState(false, false, false, [], [])

  predicate IsBlank(c: char) {
    c == ' ' || c == '\t'
  }

  /**
   * One character of the scan: the body of the `for` loop.  A step either
   * completes the buffered word, which must be non-empty, or leaves the word
   * list alone and appends at most the character read; it keeps `Valid`.
   */
  function Step(st: ScanState, c: char): (r: ScanState)
    ensures r.args == st.args || (st.current != [] && r.args == st.args + [st.current] && r.current == [])
    ensures r.args == st.args ==> r.current == st.current || r.current == st.current + [c]
    ensures Valid(st) ==> Valid(r)
  {
    if st.inBackslash then
      st.(current := st.current + [c], inBackslash := false)
    else if c == '\'' && !st.inDouble then
      st.(inSingle := !st.inSingle)
    else if c == '"' && !st.inSingle then
      st.(inDouble := !st.inDouble)
    else if c == '\\' && !st.inSingle then
      st.(inBackslash := true)
    else if IsBlank(c) && !st.inSingle && !st.inDouble then
      if st.current != [] then st.(args := st.args + [st.current], current := []) else st
    else
      st.(current := st.current + [c])
  }

  /** The state after scanning every character of `s`, starting from `st`. */
  function Scan(st: ScanState, s: string): ScanState
    decreases |s|
  {
    if s == [] then st else Scan(Step(st, s[0]), s[1..])
  }

  /** The flush after the loop: a non-empty pending word becomes the last word. */
  function Finish(st: ScanState): seq<string> {
    if st.current != [] then st.args + [st.current] else st.args
  }

  /**
   * The words `tokenize` returns for `line`.  None is empty, and each of
   * their characters comes from its own character of the line, so together
   * they are no longer than the line.
   */
  function Tokens(line: string): (ws: seq<string>)
    ensures forall i :: 0 <= i < |ws| ==> ws[i] != []
    ensures multiset(Concat(ws)) <= multiset(line)
    ensures |Concat(ws)| <= |line|
  {
    ScanValid(Start, line);
    ScanConserves(Start, line);
    FinishConserves(Scan(Start, line));
    Finish(Scan(Start, line))
  }

  /**
   * The scanning loop, with the three flags, the word buffer and the word
   * list as local variables.  Its result is `Tokens(input)`, so every
   * property proved below about `Tokens` holds of it.
   */
  method Tokenize(input: string) returns (args: seq<string>)
    ensures args == Tokens(input)
    ensures forall i :: 0 <= i < |args| ==> args[i] != []
    ensures multiset(Concat(args)) <= multiset(input)
    ensures |Concat(args)| <= |input|
  {
    args := [];
    var current: string := [];
    var inSingle, inDouble, inBackslash := false, false, false;
    for i := 0 to |input|
      invariant ScanState(inSingle, inDouble, inBackslash, current, args) == Scan(Start, input[..i])
    {
      var c := input[i];
      ScanAppend(Start, input[..i], [c]);
      assert input[..i + 1] == input[..i] + [c];
      if inBackslash {
        current := current + [c];
        inBackslash := false;
      } else if c == '\'' && !inDouble {
        inSingle := !inSingle;
      } else if c == '"' && !inSingle {
        inDouble := !inDouble;
      } else if c == '\\' && !inSingle {
        inBackslash := true;
      } else if (c == ' ' || c == '\t') && !inSingle && !inDouble {
        if current != [] {
          args := args + [current];
          current := [];
        }
      } else {
        current := current + [c];
      }
    }
    assert input[..|input|] == input;
    if current != [] {
      args := args + [current];
    }
  }

  lemma {:induction false} ScanAppend(st: ScanState, p: string, q: string)
    ensures Scan(st, p + q) == Scan(Scan(st, p), q)
    decreases |p|
  {
    if p == [] {
      assert p + q == q;
    } else {
      assert (p + q)[0] == p[0];
      assert (p + q)[1..] == p[1..] + q;
      ScanAppend(Step(st, p[0]), p[1..], q);
    }
  }

  // ---------------------------------------------------------------------
  // The scanner's invariant

  /**
   * What holds of every state the scan reaches from `Start`: the two quote
   * flags are never both set, a backslash is never pending inside single
   * quotes, and no completed word is empty.
   */
  ghost predicate Valid(st: ScanState) {
    && !(st.inSingle && st.inDouble)
    && (st.inBackslash ==> !st.inSingle)
    && forall i :: 0 <= i < |st.args| ==> st.args[i] != []
  }

  lemma {:induction false} ScanValid(st: ScanState, s: string)
    requires Valid(st)
    ensures Valid(Scan(st, s))
    decreases |s|
  {
    if s != [] {
      var next := Step(st, s[0]);
      assert Valid(next);
      ScanValid(next, s[1..]);
    }
  }

  // ---------------------------------------------------------------------
  // Quoting and escaping, one character at a time

  /**
   * A backslash outside single quotes makes the next character, whatever
   * it is, part of the word; the quote flags are as they were before.
   */
  lemma EscapeIsVerbatim(st: ScanState, c: char)
    requires !st.inSingle && !st.inBackslash
    ensures Scan(st, ['\\', c]) == st.(current := st.current + [c])
  {
    var pending := st.(inBackslash := true);
    assert Step(st, '\\') == pending;
    ScanAppend(st, ['\\'], [c]);
    assert ['\\'] + [c] == ['\\', c];
    ScanOne(st, '\\');
    ScanOne(pending, c);
  }

  lemma ScanOne(st: ScanState, c: char)
    ensures Scan(st, [c]) == Step(st, c)
  {
    assert [c][1..] == [];
  }

  /** Inside single quotes every character but `'` is kept literally. */
  lemma SingleQuotesAreLiteral(st: ScanState, c: char)
    requires Valid(st) && st.inSingle && c != '\''
    ensures Step(st, c) == st.(current := st.current + [c])
  {
  }

  /** Inside double quotes every character but `"` and `\` is kept literally. */
  lemma DoubleQuotesAreLiteral(st: ScanState, c: char)
    requires Valid(st) && st.inDouble && !st.inBackslash && c != '"' && c != '\\'
    ensures Step(st, c) == st.(current := st.current + [c])
  {
  }

  // ---------------------------------------------------------------------
  // Every output character is an input character

  /** The characters held in the completed words and the word buffer. */
  ghost function Held(st: ScanState): multiset<char> {
    multiset(Concat(st.args)) + multiset(st.current)
  }

  ghost function HeldLength(st: ScanState): nat {
    |Concat(st.args)| + |st.current|
  }

  lemma ConcatPush(ws: seq<string>, w: string)
    ensures Concat(ws + [w]) == Concat(ws) + w
  {
    assert (ws + [w])[..|ws|] == ws;
  }

  lemma StepConserves(st: ScanState, c: char)
    ensures Held(Step(st, c)) <= Held(st) + multiset{c}
    ensures HeldLength(Step(st, c)) <= HeldLength(st) + 1
  {
    var next := Step(st, c);
    if next.args != st.args {
      assert next.args == st.args + [st.current] && next.current == [];
      ConcatPush(st.args, st.current);
      assert Held(next) == Held(st);
    } else if next.current != st.current {
      assert next.current == st.current + [c];
      assert Held(next) == Held(st) + multiset{c};
    }
  }

  lemma {:induction false} ScanConserves(st: ScanState, s: string)
    ensures Held(Scan(st, s)) <= Held(st) + multiset(s)
    ensures HeldLength(Scan(st, s)) <= HeldLength(st) + |s|
    decreases |s|
  {
    if s != [] {
      StepConserves(st, s[0]);
      ScanConserves(Step(st, s[0]), s[1..]);
      assert s == [s[0]] + s[1..];
      assert multiset(s) == multiset{s[0]} + multiset(s[1..]);
    }
  }

  /** The flush keeps exactly the characters held. */
  lemma FinishConserves(st: ScanState)
    ensures multiset(Concat(Finish(st))) == Held(st)
    ensures |Concat(Finish(st))| == HeldLength(st)
  {
    if st.current != [] {
      ConcatPush(st.args, st.current);
    }
  }

  // ---------------------------------------------------------------------
  // Lines without quotes or backslashes

  predicate IsPlain(s: string) {
    forall i :: 0 <= i < |s| ==> s[i] != '\'' && s[i] != '"' && s[i] != '\\'
  }

  /** The pieces between blanks, including the empty ones (reference definition). */
  function SplitBlanks(s: string): (pieces: seq<string>)
    ensures |pieces| > 0
  {
    if s == [] then [[]]
    else
      var rest := SplitBlanks(s[1..]);
      if IsBlank(s[0]) then [[]] + rest else [[s[0]] + rest[0]] + rest[1..]
  }

  function DropEmpty(pieces: seq<string>): seq<string> {
    if pieces == [] then []
    else (if pieces[0] == [] then [] else [pieces[0]]) + DropEmpty(pieces[1..])
  }

  lemma {:induction false} ScanPlain(st: ScanState, s: string)
    requires !st.inSingle && !st.inDouble && !st.inBackslash && IsPlain(s)
    ensures var pieces := SplitBlanks(s);
      Finish(Scan(st, s)) == st.args + DropEmpty([st.current + pieces[0]] + pieces[1..])
    decreases |s|
  {
    var pieces := SplitBlanks(s);
    if s == [] {
      assert st.current + pieces[0] == st.current;
      assert [st.current] + pieces[1..] == [st.current];
    } else {
      var c, r := s[0], s[1..];
      var rest := SplitBlanks(r);
      var next := Step(st, c);
      assert IsPlain(r) by {
        forall i | 0 <= i < |r| ensures r[i] != '\'' && r[i] != '"' && r[i] != '\\' {
          assert r[i] == s[i + 1];
        }
      }
      ScanPlain(next, r);
      if IsBlank(c) {
        assert next.current == [];
        assert next.current + rest[0] == rest[0];
        assert [rest[0]] + rest[1..] == rest;
        assert pieces == [[]] + rest;
        assert pieces[0] == [] && pieces[1..] == rest;
        assert st.current + pieces[0] == st.current;
        var flushed := [st.current + pieces[0]] + pieces[1..];
        assert flushed == [st.current] + rest;
        assert flushed[0] == st.current && flushed[1..] == rest;
      } else {
        assert next == st.(current := st.current + [c]);
        assert pieces == [[c] + rest[0]] + rest[1..];
        assert st.current + pieces[0] == next.current + rest[0];
      }
    }
  }

  /**
   * On a line with no quote or backslash, `tokenize` is splitting on the
   * blanks (space and tab) and dropping the empty pieces, so runs of blanks
   * collapse.
   */
  lemma TokensOfPlainLine(line: string)
    requires IsPlain(line)
    ensures Tokens(line) == DropEmpty(SplitBlanks(line))
  {
    ScanPlain(Start, line);
    var pieces := SplitBlanks(line);
    assert [] + pieces[0] == pieces[0];
    assert [pieces[0]] + pieces[1..] == pieces;
    assert [] + DropEmpty(pieces) == DropEmpty(pieces);
  }

  // ---------------------------------------------------------------------
  // Quoting words so that `tokenize` gives them back

  /** A state outside quotes with no pending backslash. */
  function Unquoted(current: string, args: seq<string>): ScanState {
    ScanState(false, false, false, current, args)
  }

  /** Scanning `e` between two words, outside quotes, yields exactly the word `w`. */
  ghost predicate Encodes(e: string, w: string) {
    forall args: seq<string> :: Scan(Unquoted([], args), e) == Unquoted(w, args)
  }

  /** A backslash before every character. */
  function Escaped(w: string): string {
    if w == [] then [] else ['\\', w[0]] + Escaped(w[1..])
  }

  /** The word between single quotes. */
  function SingleQuoted(w: string): string {
    ['\''] + w + ['\'']
  }

  lemma {:induction false} ScanEscaped(st: ScanState, w: string)
    requires !st.inSingle && !st.inBackslash
    ensures Scan(st, Escaped(w)) == st.(current := st.current + w)
    decreases |w|
  {
    if w == [] {
      assert st.current + w == st.current;
    } else {
      ScanAppend(st, ['\\', w[0]], Escaped(w[1..]));
      EscapeIsVerbatim(st, w[0]);
      var next := st.(current := st.current + [w[0]]);
      ScanEscaped(next, w[1..]);
      assert next.current + w[1..] == st.current + w;
    }
  }

  lemma EscapedEncodes(w: string)
    ensures Encodes(Escaped(w), w)
  {
    forall args: seq<string> ensures Scan(Unquoted([], args), Escaped(w)) == Unquoted(w, args) {
      ScanEscaped(Unquoted([], args), w);
      assert [] + w == w;
    }
  }

  lemma {:induction false} ScanInsideSingleQuotes(st: ScanState, w: string)
    requires st.inSingle && !st.inDouble && !st.inBackslash
    requires forall i :: 0 <= i < |w| ==> w[i] != '\''
    ensures Scan(st, w) == st.(current := st.current + w)
    decreases |w|
  {
    if w == [] {
      assert st.current + w == st.current;
    } else {
      var next := st.(current := st.current + [w[0]]);
      assert Step(st, w[0]) == next;
      ScanInsideSingleQuotes(next, w[1..]);
      assert next.current + w[1..] == st.current + w;
    }
  }

  lemma SingleQuotedEncodes(w: string)
    requires forall i :: 0 <= i < |w| ==> w[i] != '\''
    ensures Encodes(SingleQuoted(w), w)
  {
    forall args: seq<string> ensures Scan(Unquoted([], args), SingleQuoted(w)) == Unquoted(w, args) {
      var st := Unquoted([], args);
      var inQuotes := st.(inSingle := true);
      ScanOne(st, '\'');
      ScanInsideSingleQuotes(inQuotes, w);
      assert [] + w == w;
      var filled := inQuotes.(current := w);
      ScanOne(filled, '\'');
      ScanAppend(st, ['\''], w);
      ScanAppend(st, ['\''] + w, ['\'']);
    }
  }

  lemma {:induction false} ScanJoined(args: seq<string>, es: seq<string>, ws: seq<string>)
    requires |es| == |ws|
    requires forall i :: 0 <= i < |es| ==> Encodes(es[i], ws[i]) && ws[i] != []
    ensures Finish(Scan(Unquoted([], args), Join(es, " "))) == args + ws
    decreases |es|
  {
    var st := Unquoted([], args);
    if es == [] {
      assert args + ws == args;
    } else {
      assert Encodes(es[0], ws[0]);
      var filled := Unquoted(ws[0], args);
      assert Scan(st, es[0]) == filled;
      if |es| == 1 {
        assert Join(es, " ") == es[0];
        assert ws == [ws[0]];
      } else {
        var flushed := Unquoted([], args + [ws[0]]);
        ScanOne(filled, ' ');
        assert Join(es, " ") == es[0] + " " + Join(es[1..], " ");
        ScanAppend(st, es[0], " ");
        ScanAppend(st, es[0] + " ", Join(es[1..], " "));
        ScanJoined(args + [ws[0]], es[1..], ws[1..]);
        assert args + [ws[0]] + ws[1..] == args + ws;
      }
    }
  }

  /** Words written with every character escaped, space separated, come back unchanged. */
  lemma EscapedRoundTrip(ws: seq<string>)
    requires forall i :: 0 <= i < |ws| ==> ws[i] != []
    ensures Tokens(Join(seq(|ws|, i requires 0 <= i < |ws| => Escaped(ws[i])), " ")) == ws
  {
    var es := seq(|ws|, i requires 0 <= i < |ws| => Escaped(ws[i]));
    forall i | 0 <= i < |es| ensures Encodes(es[i], ws[i]) {
      EscapedEncodes(ws[i]);
    }
    ScanJoined([], es, ws);
    assert Unquoted([], []) == Start;
  }

  /** Words without `'`, each put between single quotes, space separated, come back unchanged. */
  lemma SingleQuotedRoundTrip(ws: seq<string>)
    requires forall i :: 0 <= i < |ws| ==> ws[i] != []
    requires forall i, j :: 0 <= i < |ws| && 0 <= j < |ws[i]| ==> ws[i][j] != '\''
    ensures Tokens(Join(seq(|ws|, i requires 0 <= i < |ws| => SingleQuoted(ws[i])), " ")) == ws
  {
    var es := seq(|ws|, i requires 0 <= i < |ws| => SingleQuoted(ws[i]));
    forall i | 0 <= i < |es| ensures Encodes(es[i], ws[i]) {
      SingleQuotedEncodes(ws[i]);
    }
    ScanJoined([], es, ws);
    assert Unquoted([], []) == Start;
  }

  // ---------------------------------------------------------------------
  // Worked lines

  lemma BlanksCollapse()
    ensures Tokens("") == []
    ensures Tokens("a  b") == ["a", "b"]
  {
    var s1 := Start.(current := "a");
    assert "a  b"[1..] == "  b";
    assert Step(Start, 'a') == s1;
    assert Scan(Start, "a  b") == Scan(s1, "  b");
    var s2 := Start.(args := ["a"]);
    assert Step(s1, ' ') == s2;
    assert "  b"[1..] == " b";
    assert Scan(s1, "  b") == Scan(s2, " b");
    assert Scan(s2, " b") == Scan(s2, "b");
    assert "b"[1..] == [];
    assert Scan(s2, "b") == Scan(s2.(current := "b"), []);
  }

  lemma SingleQuotesKeepBlank()
    ensures Tokens("'a b'") == ["a b"]
  {
    var ws := ["a b"];
    SingleQuotedRoundTrip(ws);
    var es := seq(|ws|, i requires 0 <= i < |ws| => SingleQuoted(ws[i]));
    assert SingleQuoted("a b") == "'a b'";
    assert es == ["'a b'"];
    assert Join(es, " ") == "'a b'";
  }

  lemma EscapedQuoteInsideDoubleQuotes()
    ensures Tokens("\"a\\\"b\"") == ["a\"b"]
  {
    var line := "\"a\\\"b\"";
    var open := Start.(inDouble := true);
    assert line[1..] == "a\\\"b\"";
    assert Scan(Start, line) == Scan(open, "a\\\"b\"");
    var s1 := open.(current := "a");
    assert Step(open, 'a') == s1;
    assert "a\\\"b\""[1..] == "\\\"b\"";
    assert Scan(open, "a\\\"b\"") == Scan(s1, "\\\"b\"");
    assert "\\\"b\"" == ['\\', '"'] + "b\"";
    ScanAppend(s1, ['\\', '"'], "b\"");
    EscapeIsVerbatim(s1, '"');
    var s2 := open.(current := "a\"");
    assert s1.(current := s1.current + ['"']) == s2;
    var s3 := open.(current := "a\"b");
    assert Step(s2, 'b') == s3;
    assert "b\""[1..] == "\"";
    assert Scan(s2, "b\"") == Scan(s3, "\"");
    ScanOne(s3, '"');
    assert Step(s3, '"') == Start.(current := "a\"b");
  }

  lemma BackslashEscapesBlank()
    ensures Tokens("a\\ b") == ["a b"]
  {
    var s1 := Start.(current := "a");
    assert Step(Start, 'a') == s1;
    assert "a\\ b"[1..] == "\\ b";
    assert Scan(Start, "a\\ b") == Scan(s1, "\\ b");
    assert "\\ b" == ['\\', ' '] + "b";
    ScanAppend(s1, ['\\', ' '], "b");
    EscapeIsVerbatim(s1, ' ');
    var s2 := Start.(current := "a ");
    assert s1.(current := s1.current + [' ']) == s2;
    ScanOne(s2, 'b');
    assert Step(s2, 'b') == Start.(current := "a b");
  }

  lemma UnterminatedQuoteIsAccepted()
    ensures Tokens("'a b") == ["a b"]
  {
    var inQuotes := Start.(inSingle := true);
    assert "'a b"[1..] == "a b";
    assert Step(Start, '\'') == inQuotes;
    assert Scan(Start, "'a b") == Scan(inQuotes, "a b");
    var s1 := inQuotes.(current := "a");
    assert Step(inQuotes, 'a') == s1;
    assert "a b"[1..] == " b";
    assert Scan(inQuotes, "a b") == Scan(s1, " b");
    var s2 := inQuotes.(current := "a ");
    assert Step(s1, ' ') == s2;
    assert " b"[1..] == "b";
    assert Scan(s1, " b") == Scan(s2, "b");
    ScanOne(s2, 'b');
    assert Step(s2, 'b') == inQuotes.(current := "a b");
  }

  lemma TrailingBackslashIsAccepted()
    ensures Tokens("a\\") == ["a"]
  {
    var s1 := Start.(current := "a");
    assert Step(Start, 'a') == s1;
    assert "a\\"[1..] == "\\";
    assert Scan(Start, "a\\") == Scan(s1, "\\");
    ScanOne(s1, '\\');
    assert Step(s1, '\\') == s1.(inBackslash := true);
  }
}
