/**
 * src/execute.c: splitting a command line into pipeline stages, parsing each
 * stage's redirections, and the plan by which `execute_io_pipe` wires the
 * standard input and output of every stage.
 *
 * Descriptors are abstract: the pipe created while launching stage `i` has
 * the ends `ReadEnd(i)` and `WriteEnd(i)`. The system calls are not modelled;
 * whether `pipe` or `fork` fails is a parameter.
 */
module Execute {
  import opened Wrappers
  import opened Limits
  import opened LibC

  /** MAX_CMDS: the most stages a command line is split into. */
  const MaxCmds: nat := 10

  /** The delimiter set `split_commands` gives to `strtok`. */
  const PipeChars: set<char> := {'|'}

  /** The delimiter set `parse_redirection` gives to `strtok`. */
  const ArgSeparators: set<char> := {' ', '\t', '\n'}

  function Min(a: nat, b: nat): nat {
    if a <= b then a else b
  }

  // ---------------------------------------------------------------- split_commands

  /** A segment without its leading spaces; tabs and trailing spaces stay. */
  function TrimLeadingSpaces(t: string): (r: string)
  {
    if t != [] && t[0] == ' ' then TrimLeadingSpaces(t[1..]) else t
  }

  /** Trimming removes a prefix of spaces, and nothing but spaces, and leaves no leading space. */
  lemma {:induction false} TrimLeadingSpacesSuffix(t: string)
    ensures var r := TrimLeadingSpaces(t);
      && |r| <= |t| && r == t[|t| - |r|..]
      && (forall k :: 0 <= k < |t| - |r| ==> t[k] == ' ')
      && (r == [] || r[0] != ' ')
    decreases |t|
  {
    if t != [] && t[0] == ' ' {
      TrimLeadingSpacesSuffix(t[1..]);
      var r := TrimLeadingSpaces(t);
      assert t[1..][|t| - 1 - |r|..] == t[|t| - |r|..];
      forall k | 0 < k < |t| - |r| ensures t[k] == ' ' {
        assert t[k] == t[1..][k - 1];
      }
    }
  }

  /** The segments `split_commands` stores: the first MaxCmds `|`-separated tokens, each trimmed. */
  function Segments(cmdline: string): seq<string> {
    var fs := Fields(cmdline, PipeChars);
    seq(Min(|fs|, MaxCmds), k requires 0 <= k < Min(|fs|, MaxCmds) => TrimLeadingSpaces(fs[k]))
  }

  /**
   * What the segments are: at most MaxCmds of them, none holding `|`, none
   * starting with a space, each the corresponding strtok token with a prefix
   * of spaces, and nothing else, removed.
   */
  lemma SegmentsShape(cmdline: string)
    ensures |Segments(cmdline)| == Min(|Fields(cmdline, PipeChars)|, MaxCmds) <= MaxCmds
    ensures forall k :: 0 <= k < |Segments(cmdline)| ==> '|' !in Segments(cmdline)[k]
    ensures forall k :: 0 <= k < |Segments(cmdline)| ==>
      Segments(cmdline)[k] == [] || Segments(cmdline)[k][0] != ' '
    ensures forall k :: 0 <= k < |Segments(cmdline)| ==>
      var t, r := Fields(cmdline, PipeChars)[k], Segments(cmdline)[k];
      && |r| <= |t| && r == t[|t| - |r|..]
      && forall j :: 0 <= j < |t| - |r| ==> t[j] == ' '
  {
    var fs := Fields(cmdline, PipeChars);
    var segs := Segments(cmdline);
    FieldsAreFields(cmdline, PipeChars);
    forall k | 0 <= k < |segs|
      ensures '|' !in segs[k]
      ensures segs[k] == [] || segs[k][0] != ' '
      ensures |segs[k]| <= |fs[k]| && segs[k] == fs[k][|fs[k]| - |segs[k]|..]
      ensures forall j :: 0 <= j < |fs[k]| - |segs[k]| ==> fs[k][j] == ' '
    {
      assert segs[k] == TrimLeadingSpaces(fs[k]);
      TrimLeadingSpacesSuffix(fs[k]);
      TrimmedField(fs[k]);
    }
  }

  /** Trimming a `|`-free token leaves no `|` in it. */
  lemma TrimmedField(t: string)
    requires IsField(t, PipeChars)
    ensures '|' !in TrimLeadingSpaces(t)
  {
    TrimLeadingSpacesSuffix(t);
    var r := TrimLeadingSpaces(t);
    forall j | 0 <= j < |r| ensures r[j] != '|' {
      assert r[j] == t[|t| - |r| + j] && t[|t| - |r| + j] !in PipeChars;
    }
  }

  /** Runs of `|` never give an empty segment: `a||b` splits like `a|b`. */
  lemma PipeRunsCollapse(a: string, b: string)
    ensures Segments(a + "||" + b) == Segments(a + "|" + b)
  {
    var rest := "|" + b;
    assert rest == [] + ['|'] + b;
    FieldsSplit([], '|', b, PipeChars);
    assert Fields(rest, PipeChars) == Fields(b, PipeChars);
    assert a + "||" + b == a + ['|'] + rest;
    FieldsSplit(a, '|', rest, PipeChars);
    assert a + "|" + b == a + ['|'] + b;
    FieldsSplit(a, '|', b, PipeChars);
    assert Fields(a + "||" + b, PipeChars) == Fields(a + "|" + b, PipeChars);
  }

  /**
   * Commands joined by `|` come back in order, each trimmed, and only the
   * first MaxCmds of them: the rest are silently dropped.
   */
  lemma SegmentsOfJoin(cmds: seq<string>)
    requires forall k :: 0 <= k < |cmds| ==> IsField(cmds[k], PipeChars)
    ensures |Segments(Join(cmds, '|'))| == Min(|cmds|, MaxCmds)
    ensures forall k :: 0 <= k < Min(|cmds|, MaxCmds) ==> Segments(Join(cmds, '|'))[k] == TrimLeadingSpaces(cmds[k])
  {
    FieldsJoin(cmds, '|', PipeChars);
  }

  /** A trailing `| ` leaves a stage that is empty once its leading space is trimmed. */
  lemma TrailingPipeGivesEmptySegment()
    ensures Segments("ls | ") == ["ls ", ""]
  {
    var fs := ["ls ", " "];
    FieldsJoin(fs, '|', PipeChars);
    assert Join(fs, '|') == "ls | ";
    assert TrimLeadingSpaces(" ") == "";
  }

  /**
   * One step of `split_commands`: the token `t` in front of the tokens
   * `rest` still to come is the next field, and its trimmed form is the next
   * segment.
   */
  lemma SegmentStep(cmdline: string, fs: seq<string>, segs: seq<string>, count: nat, t: string,
                    rest: seq<string>, next: seq<string>, after: seq<string>)
    requires fs == Fields(cmdline, PipeChars) && segs == Segments(cmdline)
    requires count < MaxCmds && count <= |fs| && fs[count..] == [t] + rest
    requires next + after == rest
    ensures count < |segs| && segs[count] == TrimLeadingSpaces(t)
    ensures fs[count + 1..] == next + after
  {
    assert fs[count + 1..] == fs[count..][1..];
  }

  /** When `split_commands` stops, the segments stored so far are all of them. */
  lemma SegmentsDone(cmdline: string, fs: seq<string>, segs: seq<string>, count: nat, left: seq<string>)
    requires fs == Fields(cmdline, PipeChars) && segs == Segments(cmdline)
    requires count <= MaxCmds && count <= |fs| && fs[count..] == left
    requires left == [] || count == MaxCmds
    ensures |segs| == count
  {
  }

  /** The trimming loop of `split_commands`: the index of the first character that is not a space. */
  method SkipSpaces(t: string) returns (k: nat)
    ensures k <= |t| && t[k..] == TrimLeadingSpaces(t)
  {
    k := 0;
    while k < |t| && t[k] == ' '
      invariant 0 <= k <= |t|
      invariant TrimLeadingSpaces(t[k..]) == TrimLeadingSpaces(t)
    {
      assert t[k..][1..] == t[k + 1..];
      k := k + 1;
    }
  }

  /**
   * `split_commands`: fills `commands` with the trimmed segments of the line
   * and returns their number. Segments past the MaxCmds-th are dropped.
   */
  method SplitCommands(cmdline: string, commands: array<string>) returns (count: nat)
    requires IsCString(cmdline)
    requires commands.Length >= MaxCmds
    modifies commands
    ensures count <= MaxCmds
    ensures commands[..count] == Segments(cmdline)
    ensures forall k :: count <= k < commands.Length ==> commands[k] == old(commands[k])
  {
    ghost var fs := Fields(cmdline, PipeChars);
    ghost var segs := Segments(cmdline);
    count := 0;
    var token, pos := Strtok(cmdline, 0, PipeChars);
    assert cmdline[0..] == cmdline;
    while token.Some? && count < MaxCmds
      invariant pos <= |cmdline| && count <= MaxCmds && count <= |fs|
      invariant token.None? ==> pos == |cmdline|
      invariant fs[count..] == Pending(token) + Fields(cmdline[pos..], PipeChars)
      invariant count <= |segs| && forall k :: 0 <= k < count ==> commands[k] == segs[k]
      invariant forall k :: count <= k < commands.Length ==> commands[k] == old(commands[k])
      decreases |cmdline| - pos + |Pending(token)|
    {
      var t := token.value;
      var k := SkipSpaces(t);
      ghost var rest := Fields(cmdline[pos..], PipeChars);
      commands[count] := t[k..];
      token, pos := Strtok(cmdline, pos, PipeChars);
      SegmentStep(cmdline, fs, segs, count, t, rest, Pending(token), Fields(cmdline[pos..], PipeChars));
      count := count + 1;
    }
    SegmentsDone(cmdline, fs, segs, count, Pending(token) + Fields(cmdline[pos..], PipeChars));
    assert commands[..count] == segs;
  }

  // ---------------------------------------------------------------- parse_redirection

  /** One stage of a pipeline: its argument vector and its optional input and output files. */
  datatype Stage = Stage(args: seq<string>, input: Option<string>, output: Option<string>)

  /** The token after the head, if there is one: what an operator consumes as its file name. */
  function Operand(toks: seq<string>): Option<string> {
    if |toks| > 1 then Some(toks[1]) else None
  }

  /** The tokens left after an operator and its operand. */
  function AfterOperand(toks: seq<string>): seq<string> {
    if |toks| > 1 then toks[2..] else []
  }

  /**
   * The loop of `parse_redirection` over the remaining tokens `toks`, starting
   * from what it has gathered so far in `acc`.
   */
  function Scan(toks: seq<string>, acc: Stage): Stage
    decreases |toks|
  {
    if toks == [] then acc
    else if toks[0] == "<" then Scan(AfterOperand(toks), acc.(input := Operand(toks)))
    else if toks[0] == ">" then Scan(AfterOperand(toks), acc.(output := Operand(toks)))
    else Scan(toks[1..], acc.(args := acc.args + [toks[0]]))
  }

  /** What `parse_redirection` extracts from a token list: both files start out NULL. */
  function Redirect(toks: seq<string>): Stage {
    Scan(toks, Stage([], None, None))
  }

  /** What `parse_redirection` extracts from one segment of the command line. */
  function ParseStage(cmd: string): Stage {
    Redirect(Fields(cmd, ArgSeparators))
  }

  /** A pointer array holding the strings `xs`, without the NULL terminator. */
  function Pointers(xs: seq<string>): (ps: seq<Option<string>>)
    ensures |ps| == |xs|
    ensures forall k :: 0 <= k < |xs| ==> ps[k] == Some(xs[k])
  {
    seq(|xs|, k requires 0 <= k < |xs| => Some(xs[k]))
  }

  /** The strings of a NULL-terminated pointer array, as `execvp` reads them: those before the first NULL. */
  function Argv(ps: seq<Option<string>>): seq<string> {
    if ps == [] || ps[0].None? then [] else [ps[0].value] + Argv(ps[1..])
  }

  /** Reading back a vector written as pointers and a NULL gives the strings, whatever follows the NULL. */
  lemma {:induction false} ArgvOfPointers(xs: seq<string>, rest: seq<Option<string>>)
    ensures Argv(Pointers(xs) + [None] + rest) == xs
    decreases |xs|
  {
    var ps := Pointers(xs) + [None] + rest;
    if xs != [] {
      assert ps[1..] == Pointers(xs[1..]) + [None] + rest;
      ArgvOfPointers(xs[1..], rest);
    }
  }

  /** The same for the whole array: whatever follows the NULL slot is never read. */
  lemma ArgvOfVector(xs: seq<string>, v: seq<Option<string>>)
    requires |xs| < |v| && v[..|xs| + 1] == Pointers(xs) + [None]
    ensures Argv(v) == xs
  {
    assert v == v[..|xs| + 1] + v[|xs| + 1..];
    ArgvOfPointers(xs, v[|xs| + 1..]);
  }

  /**
   * One redirection in the token loop: `op` and its operand `file` (NULL when
   * the tokens ran out) are consumed, and the scan goes on from the file set.
   */
  lemma RedirectAdvance(op: string, file: Option<string>, toks: seq<string>, after: seq<string>, acc: Stage, target: Stage)
    requires op == "<" || op == ">"
    requires toks == [op] + (Pending(file) + after) && (file.None? ==> after == [])
    requires Scan(toks, acc) == target
    ensures Scan(after, if op == "<" then acc.(input := file) else acc.(output := file)) == target
  {
    if op == "<" {
      ScanInputStep(file, after, acc);
    } else {
      ScanOutputStep(file, after, acc);
    }
  }

  /** One plain token in the token loop: it is stored as the next argument, which the result keeps. */
  lemma ArgAdvance(t: string, toks: seq<string>, rest: seq<string>, acc: Stage, target: Stage)
    requires t != "<" && t != ">"
    requires toks == [t] + rest && Scan(toks, acc) == target
    ensures Scan(rest, acc.(args := acc.args + [t])) == target
    ensures |acc.args| < |target.args|
  {
    ScanArgStep(t, rest, acc);
    ScanKeepsArgs(rest, acc.(args := acc.args + [t]));
  }

  /** Scanning never removes an argument already gathered. */
  lemma {:induction false} ScanKeepsArgs(toks: seq<string>, acc: Stage)
    ensures acc.args <= Scan(toks, acc).args
    decreases |toks|
  {
    if toks != [] {
      if toks[0] == "<" {
        ScanKeepsArgs(AfterOperand(toks), acc.(input := Operand(toks)));
      } else if toks[0] == ">" {
        ScanKeepsArgs(AfterOperand(toks), acc.(output := Operand(toks)));
      } else {
        var acc' := acc.(args := acc.args + [toks[0]]);
        ScanKeepsArgs(toks[1..], acc');
      }
    }
  }

  lemma ScanInputStep(file: Option<string>, rest: seq<string>, acc: Stage)
    requires file.None? ==> rest == []
    ensures Scan(["<"] + (Pending(file) + rest), acc) == Scan(rest, acc.(input := file))
  {
    var toks := ["<"] + (Pending(file) + rest);
    if file.Some? {
      assert toks[2..] == rest;
    }
  }

  lemma ScanOutputStep(file: Option<string>, rest: seq<string>, acc: Stage)
    requires file.None? ==> rest == []
    ensures Scan([">"] + (Pending(file) + rest), acc) == Scan(rest, acc.(output := file))
  {
    var toks := [">"] + (Pending(file) + rest);
    if file.Some? {
      assert toks[2..] == rest;
    }
  }

  lemma ScanArgStep(t: string, rest: seq<string>, acc: Stage)
    requires t != "<" && t != ">"
    ensures Scan([t] + rest, acc) == Scan(rest, acc.(args := acc.args + [t]))
  {
    assert ([t] + rest)[1..] == rest;
  }

  /**
   * `parse_redirection`: the arguments go into `args` followed by NULL, the
   * file names into the two out-parameters. The source writes `args` without
   * a bound check, so the arguments and their terminator must fit the array.
   */
  method ParseRedirection(cmd: string, args: array<Option<string>>)
    returns (inputFile: Option<string>, outputFile: Option<string>)
    requires IsCString(cmd)
    requires |ParseStage(cmd).args| < args.Length
    modifies args
    ensures inputFile == ParseStage(cmd).input
    ensures outputFile == ParseStage(cmd).output
    ensures args[..|ParseStage(cmd).args| + 1] == Pointers(ParseStage(cmd).args) + [None]
    ensures forall k :: |ParseStage(cmd).args| < k < args.Length ==> args[k] == old(args[k])
  {
    ghost var target := ParseStage(cmd);
    ghost var given: seq<string> := [];
    inputFile, outputFile := None, None;
    var argnum := 0;
    var token, pos := Strtok(cmd, 0, ArgSeparators);
    assert cmd[0..] == cmd;
    // the tokens not yet scanned
    ghost var toks := Pending(token) + Fields(cmd[pos..], ArgSeparators);
    while token.Some?
      invariant pos <= |cmd|
      invariant token.None? ==> pos == |cmd|
      invariant toks == Pending(token) + Fields(cmd[pos..], ArgSeparators)
      invariant Scan(toks, Stage(given, inputFile, outputFile)) == target
      invariant argnum == |given| <= |target.args|
      invariant args[..argnum] == Pointers(given)
      invariant forall k :: argnum <= k < args.Length ==> args[k] == old(args[k])
      decreases |cmd| - pos, token.Some?
    {
      ghost var acc := Stage(given, inputFile, outputFile);
      ghost var rest := Fields(cmd[pos..], ArgSeparators);
      assert toks == [token.value] + rest;
      if token.value == "<" || token.value == ">" {
        var op := token.value;
        token, pos := Strtok(cmd, pos, ArgSeparators);
        RedirectAdvance(op, token, toks, Fields(cmd[pos..], ArgSeparators), acc, target);
        if op == "<" {
          inputFile := token;
        } else {
          outputFile := token;
        }
      } else {
        ArgAdvance(token.value, toks, rest, acc, target);
        args[argnum] := token;
        given := given + [token.value];
        argnum := argnum + 1;
        assert args[..argnum] == Pointers(given);
      }
      toks := Fields(cmd[pos..], ArgSeparators);
      token, pos := Strtok(cmd, pos, ArgSeparators);
    }
    assert cmd[pos..] == [];
    args[argnum] := None;
  }

  /** None of the tokens is a bare redirection operator. */
  predicate NoOperators(ts: seq<string>) {
    forall k :: 0 <= k < |ts| ==> ts[k] != "<" && ts[k] != ">"
  }

  /** No argument is a bare redirection operator: every such token was taken as an operator or a file name. */
  lemma {:induction false} ScanArgsNotOperators(toks: seq<string>, acc: Stage)
    requires NoOperators(acc.args)
    ensures NoOperators(Scan(toks, acc).args)
    decreases |toks|
  {
    if toks != [] {
      if toks[0] == "<" {
        ScanArgsNotOperators(AfterOperand(toks), acc.(input := Operand(toks)));
      } else if toks[0] == ">" {
        ScanArgsNotOperators(AfterOperand(toks), acc.(output := Operand(toks)));
      } else {
        var acc' := acc.(args := acc.args + [toks[0]]);
        assert acc'.args[|acc.args|] == toks[0];
        ScanArgsNotOperators(toks[1..], acc');
      }
    }
  }

  /** Tokens that are not operators all become arguments, in order. */
  lemma {:induction false} ScanPlainTokens(plain: seq<string>, toks: seq<string>, acc: Stage)
    requires NoOperators(plain)
    ensures Scan(plain + toks, acc) == Scan(toks, acc.(args := acc.args + plain))
    decreases |plain|
  {
    if plain == [] {
      assert plain + toks == toks;
      assert acc.args + plain == acc.args;
    } else {
      assert (plain + toks)[1..] == plain[1..] + toks;
      assert acc.args + [plain[0]] + plain[1..] == acc.args + plain;
      ScanPlainTokens(plain[1..], toks, acc.(args := acc.args + [plain[0]]));
    }
  }

  /** The token list that writes a stage out: its arguments, then `< in`, then `> out`. */
  function Render(st: Stage): seq<string> {
    st.args
    + (if st.input.Some? then ["<", st.input.value] else [])
    + (if st.output.Some? then [">", st.output.value] else [])
  }

  /** Parsing inverts rendering, for every stage whose arguments are not themselves operators. */
  lemma RedirectRender(st: Stage)
    requires NoOperators(st.args)
    ensures Redirect(Render(st)) == st
  {
    var inPart := if st.input.Some? then ["<", st.input.value] else [];
    var outPart := if st.output.Some? then [">", st.output.value] else [];
    assert Render(st) == st.args + (inPart + outPart);
    ScanPlainTokens(st.args, inPart + outPart, Stage([], None, None));
    assert [] + st.args == st.args;
    var start := Stage(st.args, None, None);
    var mid := start.(input := st.input);
    if st.input.Some? {
      assert (inPart + outPart)[0] == "<";
      assert AfterOperand(inPart + outPart) == outPart;
      assert Scan(inPart + outPart, start) == Scan(outPart, mid);
    } else {
      assert inPart + outPart == outPart;
    }
    if st.output.Some? {
      assert AfterOperand(outPart) == [];
    }
  }

  /**
   * The same at the level of text: a stage written out with single spaces,
   * its words free of blanks, parses back to itself.
   */
  lemma ParseStageOfRendered(st: Stage)
    requires NoOperators(st.args)
    requires forall k :: 0 <= k < |Render(st)| ==> IsField(Render(st)[k], ArgSeparators)
    ensures ParseStage(Join(Render(st), ' ')) == st
  {
    FieldsJoin(Render(st), ' ', ArgSeparators);
    RedirectRender(st);
  }

  /** The file name is taken unconditionally: in `< >` the `>` is the input file, not an operator. */
  lemma OperatorAsFileName()
    ensures Redirect(["<", ">"]) == Stage([], Some(">"), None)
  {
  }

  /** An operator with nothing after it leaves its file NULL, even over an earlier file. */
  lemma DanglingOperator()
    ensures Redirect(["cat", "<"]) == Stage(["cat"], None, None)
    ensures Redirect(["<", "a", "<"]) == Stage([], None, None)
  {
  }

  /** Tokens without a `<` leave the input file as it is. */
  lemma {:induction false} NoInputKeeps(toks: seq<string>, acc: Stage)
    requires "<" !in toks
    ensures Scan(toks, acc).input == acc.input
    decreases |toks|
  {
    if toks != [] {
      var rest := if toks[0] == ">" then AfterOperand(toks) else toks[1..];
      var skip := |toks| - |rest|;
      assert forall j :: 0 <= j < |rest| ==> rest[j] == toks[j + skip];
      assert "<" !in rest by {
        forall j | 0 <= j < |rest| ensures rest[j] != "<" {
          assert rest[j] == toks[j + skip];
        }
      }
      if toks[0] == ">" {
        NoInputKeeps(rest, acc.(output := Operand(toks)));
      } else {
        NoInputKeeps(rest, acc.(args := acc.args + [toks[0]]));
      }
    }
  }

  /** Tokens without a `>` leave the output file as it is. */
  lemma {:induction false} NoOutputKeeps(toks: seq<string>, acc: Stage)
    requires ">" !in toks
    ensures Scan(toks, acc).output == acc.output
    decreases |toks|
  {
    if toks != [] {
      var rest := if toks[0] == "<" then AfterOperand(toks) else toks[1..];
      var skip := |toks| - |rest|;
      assert forall j :: 0 <= j < |rest| ==> rest[j] == toks[j + skip];
      assert ">" !in rest by {
        forall j | 0 <= j < |rest| ensures rest[j] != ">" {
          assert rest[j] == toks[j + skip];
        }
      }
      if toks[0] == "<" {
        NoOutputKeeps(rest, acc.(input := Operand(toks)));
      } else {
        NoOutputKeeps(rest, acc.(args := acc.args + [toks[0]]));
      }
    }
  }

  /** The last `<` decides the input file, whatever file an earlier one set. */
  lemma LastInputWins(f: string, rest: seq<string>, acc: Stage)
    requires "<" !in rest
    ensures Scan(["<", f] + rest, acc).input == Some(f)
  {
    assert ["<", f] + rest == ["<"] + (Pending(Some(f)) + rest);
    ScanInputStep(Some(f), rest, acc);
    NoInputKeeps(rest, acc.(input := Some(f)));
  }

  /** The last `>` decides the output file, whatever file an earlier one set. */
  lemma LastOutputWins(f: string, rest: seq<string>, acc: Stage)
    requires ">" !in rest
    ensures Scan([">", f] + rest, acc).output == Some(f)
  {
    assert [">", f] + rest == [">"] + (Pending(Some(f)) + rest);
    ScanOutputStep(Some(f), rest, acc);
    NoOutputKeeps(rest, acc.(output := Some(f)));
  }

  /** An example: of two `<` the later decides; a token with an operator inside is an ordinary argument. */
  lemma LaterRedirectionWins()
    ensures Redirect(["<", "a", "wc", "<", "b"]) == Stage(["wc"], Some("b"), None)
    ensures Redirect(["a<b"]) == Stage(["a<b"], None, None)
  {
  }

  // ---------------------------------------------------------------- execute_io_pipe

  /** An abstract pipe descriptor: an end of the pipe created for stage `pipe`. */
  datatype Fd = ReadEnd(pipe: nat) | WriteEnd(pipe: nat)

  /** Where a stage's standard input comes from. */
  datatype Source = FromFile(path: string) | FromFd(fd: Fd) | InheritedStdin

  /** Where a stage's standard output goes. */
  datatype Sink = ToFile(path: string) | ToFd(fd: Fd) | InheritedStdout

  /** What the child forked for one stage does: the program it runs, wired as said. */
  datatype Launch = Launch(argv: seq<string>, stdin: Source, stdout: Sink)

  /** The first system call that fails, if any: `pipe` or `fork` while launching the given stage. */
  datatype Failure = PipeFails(stage: nat) | ForkFails(stage: nat)

  /** Standard input of stage `i`: its input file, else the previous pipe, else the shell's own. */
  function StdinFor(st: Stage, i: nat): Source {
    if st.input.Some? then FromFile(st.input.value)
    else if i > 0 then FromFd(ReadEnd(i - 1))
    else InheritedStdin
  }

  /** Standard output of stage `i` of `n`: its output file, else the next pipe, else the shell's own. */
  function StdoutFor(st: Stage, i: nat, n: nat): Sink {
    if st.output.Some? then ToFile(st.output.value)
    else if i + 1 < n then ToFd(WriteEnd(i))
    else InheritedStdout
  }

  /** The wiring of a whole pipeline, stage by stage. */
  function Plan(stages: seq<Stage>): (p: seq<Launch>)
    ensures |p| == |stages|
  {
    seq(|stages|, i requires 0 <= i < |stages| =>
      Launch(stages[i].args, StdinFor(stages[i], i), StdoutFor(stages[i], i, |stages|)))
  }

  /** The stages of a command line, as `parse_redirection` reads them. */
  function StagesOf(cmdline: string): (stages: seq<Stage>)
    ensures |stages| == |Segments(cmdline)|
  {
    var segs := Segments(cmdline);
    seq(|segs|, i requires 0 <= i < |segs| => ParseStage(segs[i]))
  }

  /** Whether the failure happens at all in a run of `n` stages: no pipe is made for the last stage. */
  predicate Aborts(failure: Option<Failure>, n: nat) {
    match failure
    case None => false
    case Some(PipeFails(i)) => i + 1 < n
    case Some(ForkFails(i)) => i < n
  }

  /** The number of stages whose child is forked. */
  function Forked(failure: Option<Failure>, n: nat): (k: nat)
    ensures k <= n
  {
    if Aborts(failure, n) then failure.value.stage else n
  }

  /** The number of stages whose segment is parsed: it happens before the stage's `pipe` and `fork`. */
  function Parsed(failure: Option<Failure>, n: nat): (k: nat)
    ensures Forked(failure, n) <= k <= n
  {
    if Aborts(failure, n) then failure.value.stage + 1 else n
  }

  /** The pipe end the parent keeps for stage `i`: the read end of the pipe created for stage `i - 1`. */
  function Carried(i: nat): set<Fd> {
    if i == 0 then {} else {ReadEnd(i - 1)}
  }

  /** The pipe descriptors the parent still holds when `execute_io_pipe` returns. */
  function LeftOpen(failure: Option<Failure>, n: nat): set<Fd> {
    if !Aborts(failure, n) then {}
    else
      match failure.value
      case PipeFails(i) => Carried(i)
      case ForkFails(i) => Carried(i) + (if i + 1 < n then {ReadEnd(i), WriteEnd(i)} else {})
  }

  /** Every stage that is parsed has few enough arguments for the MaxArgs + 1 slots of `args`. */
  predicate ArgsFit(cmdline: string, failure: Option<Failure>) {
    var stages := StagesOf(cmdline);
    forall i :: 0 <= i < Parsed(failure, |stages|) ==> |stages[i].args| <= MaxArgs
  }

  /** A run that gets past stage `i`'s `pipe` and `fork` forks more than `i` children. */
  lemma ForkedPast(failure: Option<Failure>, n: nat, i: nat)
    requires i < n && i <= Forked(failure, n)
    requires failure != Some(ForkFails(i))
    requires i + 1 < n ==> failure != Some(PipeFails(i))
    ensures i + 1 <= Forked(failure, n)
  {
  }

  /** A failing `pipe` for a stage that is not the last ends the run with `i` children and the carried read end open. */
  lemma PipeFailure(n: nat, i: nat)
    requires i + 1 < n
    ensures var failure := Some(PipeFails(i));
      && Aborts(failure, n) && Forked(failure, n) == i && LeftOpen(failure, n) == Carried(i)
  {
  }

  /** A failing `fork` ends the run with `i` children; the new pipe, if one was made, stays open too. */
  lemma ForkFailure(n: nat, i: nat)
    requires i < n
    ensures var failure := Some(ForkFails(i));
      && Aborts(failure, n) && Forked(failure, n) == i
      && LeftOpen(failure, n) == Carried(i) + (if i + 1 < n then {ReadEnd(i), WriteEnd(i)} else {})
  {
  }

  /** Launching stage `i` as the plan says extends the launches of the stages before it. */
  lemma PlanStep(stages: seq<Stage>, i: nat, launched: seq<Launch>, l: Launch)
    requires i < |stages| && launched == Plan(stages)[..i]
    requires l == Launch(stages[i].args, StdinFor(stages[i], i), StdoutFor(stages[i], i, |stages|))
    ensures launched + [l] == Plan(stages)[..i + 1]
  {
    assert Plan(stages)[..i + 1] == Plan(stages)[..i] + [Plan(stages)[i]];
  }

  /** Stage `i` reads a pipe only when it has no input file and is not first, and then the pipe of stage `i - 1`. */
  lemma PlanReadsPreviousPipe(stages: seq<Stage>, i: nat, p: nat)
    requires i < |stages|
    ensures Plan(stages)[i].stdin == FromFd(ReadEnd(p)) <==> stages[i].input.None? && i == p + 1
    ensures Plan(stages)[i].stdin != FromFd(WriteEnd(p))
  {
  }

  /** Stage `i` writes a pipe only when it has no output file and is not last, and then its own pipe. */
  lemma PlanWritesOwnPipe(stages: seq<Stage>, i: nat, p: nat)
    requires i < |stages|
    ensures Plan(stages)[i].stdout == ToFd(WriteEnd(p)) <==> stages[i].output.None? && i == p && p + 1 < |stages|
    ensures Plan(stages)[i].stdout != ToFd(ReadEnd(p))
  {
  }

  /** A redirection file always wins over the pipe; the first stage and the last inherit the shell's streams otherwise. */
  lemma PlanEnds(stages: seq<Stage>)
    requires |stages| > 0
    ensures forall i :: 0 <= i < |stages| && stages[i].input.Some? ==> Plan(stages)[i].stdin == FromFile(stages[i].input.value)
    ensures forall i :: 0 <= i < |stages| && stages[i].output.Some? ==> Plan(stages)[i].stdout == ToFile(stages[i].output.value)
    ensures stages[0].input.None? ==> Plan(stages)[0].stdin == InheritedStdin
    ensures stages[|stages| - 1].output.None? ==> Plan(stages)[|stages| - 1].stdout == InheritedStdout
  {
  }

  /** Neighbouring stages without files in between are joined by one pipe: the writer's end feeds the reader's. */
  lemma PlanConnectsNeighbours(stages: seq<Stage>, i: nat)
    requires i + 1 < |stages|
    requires stages[i].output.None? && stages[i + 1].input.None?
    ensures Plan(stages)[i].stdout == ToFd(WriteEnd(i))
    ensures Plan(stages)[i + 1].stdin == FromFd(ReadEnd(i))
  {
  }

  /** The example line is two commands joined by `|`; trimming removes the space before `wc`. */
  lemma ExampleCommands()
    ensures Join(["cat < in ", " wc"], '|') == "cat < in | wc"
    ensures TrimLeadingSpaces("cat < in ") == "cat < in " && TrimLeadingSpaces(" wc") == "wc"
  {
    assert Join([" wc"], '|') == " wc";
  }

  lemma ExampleSegments()
    ensures Segments("cat < in | wc") == ["cat < in ", "wc"]
  {
    var cmds := ["cat < in ", " wc"];
    assert '|' !in cmds[0] && '|' !in cmds[1];
    SegmentsOfJoin(cmds);
    var segs := Segments(Join(cmds, '|'));
    ExampleCommands();
    assert |segs| == 2 && segs[0] == "cat < in " && segs[1] == "wc";
    assert segs == ["cat < in ", "wc"];
  }

  lemma ExampleFirstStage()
    ensures ParseStage("cat < in ") == Stage(["cat"], Some("in"), None)
  {
    var ts := ["cat", "<", "in"];
    FieldsJoin(ts, ' ', ArgSeparators);
    assert Join(ts, ' ') + [' '] + [] == "cat < in ";
    FieldsSplit(Join(ts, ' '), ' ', [], ArgSeparators);
    assert Fields("cat < in ", ArgSeparators) == ts;
  }

  lemma ExampleSecondStage()
    ensures ParseStage("wc") == Stage(["wc"], None, None)
  {
    FieldsOfField("wc", ArgSeparators);
  }

  /** A two-stage pipeline with an input file on its first stage. */
  lemma ExamplePipeline()
    ensures Plan(StagesOf("cat < in | wc")) ==
      [Launch(["cat"], FromFile("in"), ToFd(WriteEnd(0))), Launch(["wc"], FromFd(ReadEnd(0)), InheritedStdout)]
  {
    ExampleSegments();
    ExampleFirstStage();
    ExampleSecondStage();
  }

  /** Every segment is part of the line, so it holds no NUL either. */
  lemma SegmentIsCString(cmdline: string, i: nat)
    requires IsCString(cmdline) && i < |Segments(cmdline)|
    ensures IsCString(Segments(cmdline)[i])
  {
    var fs := Fields(cmdline, PipeChars);
    FieldsAvoid(cmdline, PipeChars, '\0');
    var t := fs[i];
    TrimLeadingSpacesSuffix(t);
    var r := TrimLeadingSpaces(t);
    assert r == t[|t| - |r|..];
    assert forall k :: 0 <= k < |r| ==> r[k] == t[|t| - |r| + k];
  }

  /**
   * `execute_io_pipe`: for each stage, parse it, create a pipe unless it is
   * the last, fork, and in the parent close the carried read end and the new
   * write end and carry the new read end. `launched` holds what each forked
   * child does; `openFds` is what the parent holds when the function returns.
   */
  method ExecuteIoPipe(cmdline: string, failure: Option<Failure>)
    returns (status: int, launched: seq<Launch>, openFds: set<Fd>)
    requires IsCString(cmdline)
    requires ArgsFit(cmdline, failure)
    ensures var n := |Segments(cmdline)|;
      && status == (if Aborts(failure, n) then -1 else 0)
      && launched == Plan(StagesOf(cmdline))[..Forked(failure, n)]
      && openFds == LeftOpen(failure, n)
  {
    var commands := new string[MaxCmds];
    var numCmds := SplitCommands(cmdline, commands);
    ghost var stages := StagesOf(cmdline);
    ghost var plan := Plan(stages);
    var prevFd: Option<Fd> := None;
    launched, openFds := [], {};
    var i := 0;
    while i < numCmds
      invariant 0 <= i <= numCmds == |stages|
      invariant commands[..numCmds] == Segments(cmdline)
      invariant i <= Forked(failure, numCmds)
      invariant launched == plan[..i]
      invariant i < numCmds ==> prevFd == (if i == 0 then None else Some(ReadEnd(i - 1)))
      invariant openFds == (if i < numCmds then Carried(i) else {})
    {
      assert i < Parsed(failure, numCmds);
      assert stages[i] == ParseStage(commands[i]);
      SegmentIsCString(cmdline, i);
      var args := new Option<string>[MaxArgs + 1](_ => None);
      var inputFile, outputFile := ParseRedirection(commands[i], args);
      var pipeRead, pipeWrite := ReadEnd(i), WriteEnd(i);
      if i < numCmds - 1 {
        if failure == Some(PipeFails(i)) {
          PipeFailure(numCmds, i);
          return -1, launched, openFds;
        }
        openFds := openFds + {pipeRead, pipeWrite};
      }
      if failure == Some(ForkFails(i)) {
        ForkFailure(numCmds, i);
        return -1, launched, openFds;
      }
      ForkedPast(failure, numCmds, i);
      // the child: execvp(args[0], args) with stdin and stdout wired as follows
      var stdin := if inputFile.Some? then FromFile(inputFile.value)
                   else if prevFd.Some? then FromFd(prevFd.value)
                   else InheritedStdin;
      var stdout := if outputFile.Some? then ToFile(outputFile.value)
                    else if i < numCmds - 1 then ToFd(pipeWrite)
                    else InheritedStdout;
      ArgvOfVector(stages[i].args, args[..]);
      assert stdin == StdinFor(stages[i], i) && stdout == StdoutFor(stages[i], i, numCmds);
      PlanStep(stages, i, launched, Launch(Argv(args[..]), stdin, stdout));
      launched := launched + [Launch(Argv(args[..]), stdin, stdout)];
      // the parent
      if prevFd.Some? {
        openFds := openFds - {prevFd.value};
      }
      if i < numCmds - 1 {
        openFds := openFds - {pipeWrite};
        prevFd := Some(pipeRead);
      }
      i := i + 1;
    }
    return 0, launched, openFds;
  }
}
