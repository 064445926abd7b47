/**
 * src/shell.c: the line tokenizer and the built-in command check.
 *
 * `tokenize` walks a cursor over the line. Spaces and tabs separate tokens;
 * `<`, `>` and `|` are always one-character tokens, even when they touch a
 * word; every other character (newline included) belongs to a word. At most
 * MaxArgs tokens are produced, and each word is copied into a buffer of ArgLen
 * bytes without a length check.
 */
module Shell {
  import opened Wrappers
  import opened Limits
  import opened LibC

  predicate IsBlank(c: char) {
    c == ' ' || c == '\t'
  }

  predicate IsOperator(c: char) {
    c == '<' || c == '>' || c == '|'
  }

  /** The characters that end a word. */
  const WordBreaks: set<char> := {' ', '\t', '<', '>', '|'}

  const BlankChars: set<char> := {' ', '\t'}

  /** A word token: a non-empty run of characters that are neither blanks nor operators. */
  predicate IsWord(t: string) {
    IsField(t, WordBreaks)
  }

  /** A token of the scanner: a word, or a single operator character. */
  predicate IsToken(t: string) {
    IsWord(t) || (|t| == 1 && IsOperator(t[0]))
  }

  /** Every token the scanner finds in `s`, in order, with no cap on their number. */
  function Lex(s: string): seq<string>
    decreases |s|
  {
    if s == [] then []
    else if IsBlank(s[0]) then Lex(s[1..])
    else if IsOperator(s[0]) then [[s[0]]] + Lex(s[1..])
    else
      var n := RunLen(s, WordBreaks);
      [s[..n]] + Lex(s[n..])
  }

  /** Every token is a word or a lone operator character. */
  lemma {:induction false} LexTokens(s: string)
    ensures forall k :: 0 <= k < |Lex(s)| ==> IsToken(Lex(s)[k])
    decreases |s|
  {
    if s != [] {
      if IsBlank(s[0]) || IsOperator(s[0]) {
        LexTokens(s[1..]);
      } else {
        LexTokens(s[RunLen(s, WordBreaks)..]);
      }
    }
  }

  /** The first `n` elements, or all of them when there are fewer. */
  function Take<T>(xs: seq<T>, n: nat): (r: seq<T>)
    ensures |r| <= n && r <= xs
    ensures |xs| <= n ==> r == xs
  {
    if |xs| <= n then xs else xs[..n]
  }

  lemma TakePrefix<T>(done: seq<T>, rest: seq<T>, n: nat)
    requires 0 < n && |done| <= n
    requires rest == [] || |done| == n
    ensures Take(done + rest, n) == done
    ensures done == [] <==> done + rest == []
  {
    assert (done + rest)[..|done|] == done;
  }

  /** Each word that is copied (one of the first MaxArgs tokens) fits its buffer with its terminator. */
  predicate WordsFit(s: string) {
    var ts := Lex(s);
    forall k :: 0 <= k < |ts| && k < MaxArgs ==> |ts[k]| < ArgLen
  }

  /** What `tokenize` returns: NULL when the line holds no token, otherwise its first MaxArgs tokens. */
  function Tokens(cmdline: Option<string>): Option<seq<string>> {
    if cmdline.None? || Lex(cmdline.value) == [] then None
    else Some(Take(Lex(cmdline.value), MaxArgs))
  }

  lemma LexSkip(s: string, i: nat)
    requires i < |s| && IsBlank(s[i])
    ensures Lex(s[i..]) == Lex(s[i + 1..])
  {
    assert s[i..][1..] == s[i + 1..];
  }

  lemma LexOperator(s: string, i: nat)
    requires i < |s| && IsOperator(s[i])
    ensures Lex(s[i..]) == [[s[i]]] + Lex(s[i + 1..])
  {
    assert s[i..][1..] == s[i + 1..];
  }

  lemma LexWordAt(s: string, i: nat, j: nat)
    requires i < j <= |s|
    requires forall k :: i <= k < j ==> s[k] !in WordBreaks
    requires j < |s| ==> s[j] in WordBreaks
    ensures Lex(s[i..]) == [s[i..j]] + Lex(s[j..])
  {
    var t := s[i..];
    RunLenExact(t, WordBreaks, j - i);
    assert t[..j - i] == s[i..j];
    assert t[j - i..] == s[j..];
  }

  /** The word the scanner copies between `start` and `stop` is the next token, and it fits its buffer. */
  lemma WordStep(s: string, toks: seq<string>, start: nat, stop: nat)
    requires WordsFit(s) && |toks| < MaxArgs
    requires start < stop <= |s|
    requires toks + Lex(s[start..]) == Lex(s)
    requires forall k :: start <= k < stop ==> s[k] !in WordBreaks
    requires stop < |s| ==> s[stop] in WordBreaks
    ensures (toks + [s[start..stop]]) + Lex(s[stop..]) == Lex(s)
    ensures |s[start..stop]| < ArgLen
  {
    LexWordAt(s, start, stop);
    assert Lex(s)[|toks|] == s[start..stop];
  }

  /** The blank-skipping loop of the scanner: blanks are not tokens. */
  method SkipBlanks(s: string, from: nat) returns (cp: nat)
    requires from <= |s|
    ensures from <= cp <= |s|
    ensures cp < |s| ==> !IsBlank(s[cp])
    ensures Lex(s[cp..]) == Lex(s[from..])
  {
    cp := from;
    while cp < |s| && (s[cp] == ' ' || s[cp] == '\t')
      invariant from <= cp <= |s|
      invariant Lex(s[cp..]) == Lex(s[from..])
    {
      LexSkip(s, cp);
      cp := cp + 1;
    }
  }

  /** The word-copying loop of the scanner: a word runs up to the next blank or operator. */
  method WordEnd(s: string, start: nat) returns (cp: nat)
    requires start < |s| && s[start] !in WordBreaks
    ensures start < cp <= |s|
    ensures forall k :: start <= k < cp ==> s[k] !in WordBreaks
    ensures cp < |s| ==> s[cp] in WordBreaks
  {
    cp := start;
    while cp < |s| && s[cp] != ' ' && s[cp] != '\t' && s[cp] != '<' && s[cp] != '>' && s[cp] != '|'
      invariant start <= cp <= |s|
      invariant forall k :: start <= k < cp ==> s[k] !in WordBreaks
    {
      cp := cp + 1;
    }
  }

  /**
   * The scanner of shell.c: `cp` is the cursor, `toks` the tokens copied so
   * far. A NULL line, an empty line and a line of blanks give NULL.
   */
  method Tokenize(cmdline: Option<string>) returns (arglist: Option<seq<string>>)
    requires cmdline.Some? ==> IsCString(cmdline.value) && WordsFit(cmdline.value)
    ensures arglist == Tokens(cmdline)
    ensures arglist.Some? ==> 0 < |arglist.value| <= MaxArgs
  {
    if cmdline.None? || cmdline.value == [] {
      return None;
    }
    var s := cmdline.value;
    var toks: seq<string> := [];
    var cp := 0;
    assert s[cp..] == s;
    while cp < |s| && |toks| < MaxArgs
      invariant 0 <= cp <= |s|
      invariant |toks| <= MaxArgs
      invariant toks + Lex(s[cp..]) == Lex(s)
      decreases |s| - cp
    {
      cp := SkipBlanks(s, cp);
      if cp == |s| {
        break;
      }
      if s[cp] == '<' || s[cp] == '>' || s[cp] == '|' {
        LexOperator(s, cp);
        assert (toks + [[s[cp]]]) + Lex(s[cp + 1..]) == toks + Lex(s[cp..]);
        toks := toks + [[s[cp]]];
        cp := cp + 1;
      } else {
        var start := cp;
        cp := WordEnd(s, start);
        WordStep(s, toks, start, cp);
        var word := s[start..cp];
        // the copy writes the word and its terminator into an ArgLen-byte buffer
        assert |word| < ArgLen;
        toks := toks + [word];
      }
    }
    assert cp == |s| ==> s[cp..] == [];
    TakePrefix(toks, Lex(s[cp..]), MaxArgs);
    if |toks| == 0 {
      return None;
    }
    return Some(toks);
  }

  lemma {:induction false} LexConcat(s: string)
    ensures Concat(Lex(s)) == Without(s, BlankChars)
    decreases |s|
  {
    if s != [] {
      if IsBlank(s[0]) {
        LexConcat(s[1..]);
        assert Without(s, BlankChars) == Without(s[1..], BlankChars);
      } else if IsOperator(s[0]) {
        LexConcat(s[1..]);
        var ts := [[s[0]]] + Lex(s[1..]);
        assert ts[1..] == Lex(s[1..]);
        assert Concat(ts) == [s[0]] + Concat(Lex(s[1..]));
        assert Without(s, BlankChars) == [s[0]] + Without(s[1..], BlankChars);
      } else {
        var n := RunLen(s, WordBreaks);
        var w, rest := s[..n], s[n..];
        assert s == w + rest;
        LexConcat(rest);
        var ts := [w] + Lex(rest);
        assert Lex(s) == ts;
        assert ts[1..] == Lex(rest);
        assert Concat(ts) == w + Concat(Lex(rest));
        WithoutAppend(w, rest, BlankChars);
        assert forall k :: 0 <= k < |w| ==> w[k] !in BlankChars by {
          forall k | 0 <= k < |w| ensures w[k] !in BlankChars {
            assert w[k] == s[k] && s[k] !in WordBreaks;
          }
        }
        WithoutNone(w, BlankChars);
      }
    }
  }

  /** A line yields no token exactly when it holds nothing but spaces and tabs. */
  lemma {:induction false} LexEmpty(s: string)
    ensures Lex(s) == [] <==> forall k :: 0 <= k < |s| ==> IsBlank(s[k])
    decreases |s|
  {
    if s != [] {
      LexEmpty(s[1..]);
      if IsBlank(s[0]) {
        forall k | 0 < k < |s| ensures s[k] == s[1..][k - 1] { }
      }
    }
  }

  /** A blank or an operator character separates: the text on each side is scanned independently. */
  lemma {:induction false} LexSplit(a: string, c: char, b: string)
    requires IsBlank(c) || IsOperator(c)
    ensures Lex(a + [c] + b) == Lex(a) + Lex([c]) + Lex(b)
    decreases |a|
  {
    var s := a + [c] + b;
    assert [c][1..] == [];
    if a == [] {
      assert s[1..] == b;
    } else if IsBlank(a[0]) || IsOperator(a[0]) {
      assert s[1..] == a[1..] + [c] + b;
      LexSplit(a[1..], c, b);
    } else {
      var n := RunLen(a, WordBreaks);
      RunLenExact(s, WordBreaks, n);
      assert s[..n] == a[..n];
      assert s[n..] == a[n..] + [c] + b;
      LexSplit(a[n..], c, b);
    }
  }

  /** A word standing alone is one token. */
  lemma LexWord(w: string)
    requires IsWord(w)
    ensures Lex(w) == [w]
  {
    RunLenExact(w, WordBreaks, |w|);
    assert w[..|w|] == w;
    assert w[|w|..] == [];
  }

  /** Words separated by single spaces come back as exactly those words. */
  lemma {:induction false} LexJoin(ws: seq<string>)
    requires forall k :: 0 <= k < |ws| ==> IsWord(ws[k])
    ensures Lex(Join(ws, ' ')) == ws
    decreases |ws|
  {
    if |ws| == 1 {
      LexWord(ws[0]);
    } else if |ws| > 1 {
      LexSplit(ws[0], ' ', Join(ws[1..], ' '));
      LexWord(ws[0]);
      LexJoin(ws[1..]);
      assert Lex([' ']) == [];
    }
  }

  /** When nothing is cut off by the cap, the tokens are the line with its blanks removed. */
  lemma TokensConcat(s: string)
    requires Lex(s) != [] && |Lex(s)| <= MaxArgs
    ensures Tokens(Some(s)) == Some(Lex(s))
    ensures Concat(Tokens(Some(s)).value) == Without(s, BlankChars)
  {
    LexConcat(s);
  }

  /** `tokenize` returns NULL exactly for a NULL line and a line of nothing but spaces and tabs. */
  lemma TokensNullIffBlank(s: string)
    ensures Tokens(Some(s)).None? <==> forall k :: 0 <= k < |s| ==> IsBlank(s[k])
  {
    LexEmpty(s);
  }

  /** Newline does not separate: it stays inside the word. */
  lemma NewlineInWord()
    ensures Lex("echo\n") == ["echo\n"]
  {
    LexWord("echo\n");
  }

  /** What `tokenize` returns is its line's first tokens, in order: each a word or a lone operator. */
  lemma TokensArePrefix(s: string)
    requires Tokens(Some(s)).Some?
    ensures var ts := Tokens(Some(s)).value;
      && 0 < |ts| <= MaxArgs && ts <= Lex(s)
      && forall k :: 0 <= k < |ts| ==> IsToken(ts[k])
  {
    LexTokens(s);
  }

  /** An operator touching words on both sides is still its own token. */
  lemma OperatorBetweenWords(a: string, op: char, b: string)
    requires IsWord(a) && IsOperator(op) && IsWord(b)
    ensures Lex(a + [op] + b) == [a, [op], b]
  {
    LexSplit(a, op, b);
    LexWord(a);
    LexWord(b);
    assert [op][1..] == [];
  }

  lemma RedirectTouchingWords()
    ensures Lex("ls>out") == ["ls", ">", "out"]
  {
    assert 'l' !in WordBreaks && 's' !in WordBreaks;
    assert 'o' !in WordBreaks && 'u' !in WordBreaks && 't' !in WordBreaks;
    OperatorBetweenWords("ls", '>', "out");
    assert "ls" + ['>'] + "out" == "ls>out";
  }

  /** The outcome of `handle_builtin`: 0, 1, or the shell exits without returning. */
  datatype Builtin = NotBuiltin | Handled | ExitShell

  /** The names `handle_builtin` answers with 1. */
  const HandledNames: set<string> := {"cd", "help", "jobs", "history"}

  /** The command name of an argument list, if it has one. */
  function CommandName(arglist: Option<seq<string>>): Option<string> {
    if arglist.None? || |arglist.value| == 0 then None else Some(arglist.value[0])
  }

  /** The decision `handle_builtin` takes on the first word of the argument list. */
  function HandleBuiltin(arglist: Option<seq<string>>): (r: Builtin)
    ensures r == ExitShell <==> CommandName(arglist) == Some("exit")
    ensures r == Handled <==> CommandName(arglist).Some? && CommandName(arglist).value in HandledNames
    ensures r == NotBuiltin <==> CommandName(arglist).None? || CommandName(arglist).value !in HandledNames + {"exit"}
  {
    if arglist.None? || |arglist.value| == 0 then NotBuiltin
    else
      var name := arglist.value[0];
      if name == "exit" then ExitShell
      else if name == "cd" then Handled
      else if name == "help" then Handled
      else if name == "jobs" then Handled
      else if name == "history" then Handled
      else NotBuiltin
  }

  /** The integer `handle_builtin` returns, for the outcomes that return. */
  function ReturnCode(r: Builtin): int
    requires r != ExitShell
  {
    if r == Handled then 1 else 0
  }

  /**
   * The integer `handle_builtin` returns when the shell does not exit: 1 for
   * a handled name, and 0 for a NULL or empty list and for every other name.
   */
  lemma BuiltinReturnCode(arglist: Option<seq<string>>)
    requires CommandName(arglist) != Some("exit")
    ensures HandleBuiltin(arglist) != ExitShell
    ensures ReturnCode(HandleBuiltin(arglist)) == 1 <==> CommandName(arglist).Some? && CommandName(arglist).value in HandledNames
    ensures ReturnCode(HandleBuiltin(arglist)) == 0 <==> CommandName(arglist).None? || CommandName(arglist).value !in HandledNames
  {
  }

  /** A tokenized `cd` line is handled as a built-in. */
  lemma CdIsBuiltin()
    ensures HandleBuiltin(Tokens(Some("cd /tmp"))) == Handled
  {
    var ts := ["cd", "/tmp"];
    LexJoin(ts);
    assert Join(ts, ' ') == "cd /tmp";
    assert Take(ts, MaxArgs) == ts;
  }

  /** Only the command name matters: the remaining arguments never change the decision. */
  lemma BuiltinIgnoresArguments(name: string, rest1: seq<string>, rest2: seq<string>)
    ensures HandleBuiltin(Some([name] + rest1)) == HandleBuiltin(Some([name] + rest2))
  {
  }
}
