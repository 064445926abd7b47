# Command-line parsing of a small Unix shell, modelled in Dafny

This project models the text processing that the shell runs before it calls
`fork` and `exec`, and it proves properties of that model:

- `tokenize` (src/shell.c) scans a line into at most `MAXARGS` (10) tokens.
  Space and tab separate tokens. `<`, `>` and `|` are always tokens of one
  character.
- `handle_builtin` (src/shell.c) decides from the first word whether a
  command is a built-in.
- `split_commands` (src/execute.c) splits a line on `|` with `strtok`. It
  keeps at most `MAX_CMDS` (10) segments and trims leading spaces from each.
- `parse_redirection` (src/execute.c) re-tokenises one segment on space, tab
  and newline. A standalone `<` or `>` takes the next token as a file name.
  All other tokens fill a NULL-terminated argument vector.
- `execute_io_pipe` (src/execute.c) decides, for each stage, where its
  standard input comes from and where its standard output goes. It also
  carries the previous pipe's read end (`prev_fd`) from stage to stage.

Modules:

- `Limits` (limits.dfy) holds the constants of include/shell.h.
- `LibC` (libc.dfy) models C strings and `strtok`. `Fields(s, delims)` is
  the list of maximal non-empty runs of non-delimiters. The method `Strtok`
  is one call that resumes at a position. Both parsers of execute.c use them.
- `Shell` (shell.dfy) models src/shell.c.
  - `Lex` is the uncapped token list.
  - `Tokenize` is the cursor loop of the source. It is proved to return
    `Tokens`, which is NULL or the first 10 tokens of `Lex`. Its two inner
    loops, over blanks and over the characters of a word, are the methods
    `SkipBlanks` and `WordEnd`.
  - `HandleBuiltin` is the built-in decision.
- `Execute` (execute.dfy) models src/execute.c.
  - `SplitCommands` fills an array of segments. Its trimming loop is
    `SkipSpaces`.
  - `ParseRedirection` fills an array of `Option<string>` pointers, where
    `None` is NULL, and returns the two file names.
  - `ExecuteIoPipe` runs the stage loop over abstract descriptors:
    `ReadEnd(i)` and `WriteEnd(i)` are the ends of the pipe created for
    stage `i`. The method returns what each forked child is wired to, the
    status (0 or -1), and the pipe descriptors the parent still holds.
    `Plan` is the per-stage wiring, defined by position. The method's
    `prev_fd` bookkeeping is proved to produce exactly that wiring.

Representation choices:

- A C string is a `string` that contains no NUL (`IsCString`). A NULL
  pointer is `None`.
- Each `char` of a model string stands for one byte (one C `char`) of the
  line. The source never decodes multi-byte characters, so lengths count
  bytes: `WordsFit` compares a word's length in bytes with `ARGLEN`, the
  buffer size in bytes.
- `strtok` writes NUL bytes into the line. It is modelled on values: each
  token is a separate string.
- Whether a `pipe` or `fork` call fails is a parameter, `failure`: the
  first call that fails, if any. On that path the model returns -1 as the
  source does. It reports the descriptors the parent leaves open: the
  carried read end, and after a failed `fork` both ends of the new pipe.

Edge cases, as the code handles them:

- Segments after the tenth are dropped without an error.
- Only leading spaces are trimmed from a segment. Its tabs and trailing
  spaces stay.
- A trailing `| ` gives an empty stage.
- An operator at the end of a segment leaves its file NULL.
- Writing more than `MAXARGS` arguments overruns `args`, so the model makes
  the bound a precondition (`ArgsFit`, and the `requires` of
  `ParseRedirection`).
- A tokenizer word of `ARGLEN` (30) characters or more overruns its
  buffer. This too is a precondition (`WordsFit`).
- The source waits for each stage right after forking it. It does not fork
  every stage first and then wait.

## Model

| member | source | states |
|---|---|---|
| `LibC.Fields` | src/execute.c:14-18 | the list of tokens a sequence of `strtok` calls with one delimiter set returns: the maximal non-empty runs of non-delimiters, in order; a definition, whose properties are the lemmas below |
| `LibC.Strtok` | src/execute.c:14-18 | one `strtok` call returns NULL exactly when no token remains; otherwise it returns the next maximal run of non-delimiters and resumes past the delimiter that ends it, so the tokens still to come are unchanged |
| `LibC.RunLen` | src/execute.c:14 | the prefix `strtok` returns is the longest one without a delimiter: no delimiter inside it, and a delimiter or the end right after it |
| `LibC.FieldsAreFields` | src/execute.c:14-18 | every token `strtok` returns is non-empty and holds no delimiter |
| `LibC.FieldsConcat` | src/execute.c:14-18 | written one after another, the tokens are exactly the input with its delimiters deleted, so order is kept and only delimiters are lost |
| `LibC.FieldsSplit` | src/execute.c:14-18 | a delimiter separates what comes before it from what comes after it; delimiter runs therefore collapse and produce no empty token |
| `LibC.FieldsJoin` | src/execute.c:29-40 | tokens joined by a delimiter are split back into exactly those tokens |
| `Shell.Lex` | src/shell.c:24-43 | the scanner's token list without the MAXARGS cap: spaces and tabs are skipped, `<`, `>` and the pipe character are one-character tokens, and every other run up to a blank or an operator is one word; a definition |
| `Shell.Tokens` | src/shell.c:13-53 | what `tokenize` returns: NULL for a NULL line and for a line without tokens, otherwise the first MAXARGS tokens of `Lex`; a definition |
| `Shell.WordsFit` | src/shell.c:40-41 | the condition under which the copy stays in its buffer: each of the first MAXARGS tokens is shorter than ARGLEN; a definition used as a precondition |
| `Shell.Tokenize` | src/shell.c:12-54 | NULL for a NULL or empty line and for a line with no token; otherwise the first MAXARGS tokens of the line (between 1 and 10 of them), provided every copied word is shorter than ARGLEN |
| `Shell.SkipBlanks` | src/shell.c:25 | the cursor stops at the end or at a character that is neither space nor tab, and the blanks it passes contribute no token |
| `Shell.WordEnd` | src/shell.c:36-39 | the cursor moves past at least one character, every character it passes belongs to the word, and it stops at the end or at a blank or operator |
| `Shell.WordStep` | src/shell.c:34-42 | the characters copied between the word's start and the cursor are the next token, and they fit the ARGLEN-byte buffer with the terminator |
| `Shell.LexTokens` | src/shell.c:25-42 | every token is a non-empty word free of space, tab, `<`, `>` and the pipe character, or a single `<`, `>` or pipe character |
| `Shell.LexConcat` | src/shell.c:24-43 | the tokens, concatenated, are the line with its spaces and tabs deleted |
| `Shell.LexEmpty` | src/shell.c:46-50 | a line yields no token exactly when every character in it is a space or a tab |
| `Shell.TokensNullIffBlank` | src/shell.c:13-50 | `tokenize` returns NULL for a line exactly when the line is blanks only (the empty line included) |
| `Shell.LexSplit` | src/shell.c:25-32 | a space, tab or operator character separates: the text before it and the text after it are tokenised independently, and an operator becomes its own token |
| `Shell.LexWord` | src/shell.c:34-42 | a word on its own is one token: words are maximal runs |
| `Shell.LexJoin` | src/shell.c:24-43 | words separated by single spaces come back as exactly those words |
| `Shell.TokensConcat` | src/shell.c:24-52 | with at most MAXARGS tokens nothing is cut off, and the returned tokens concatenate to the line without its blanks |
| `Shell.TokensArePrefix` | src/shell.c:24-52 | the result holds 1 to 10 tokens, in input order, each a word or a lone operator |
| `Shell.NewlineInWord` | src/shell.c:36 | a newline is not a separator: it stays inside the word |
| `Shell.RedirectTouchingWords` | src/shell.c:28-32 | `ls>out` is scanned as `ls`, `>`, `out` |
| `Shell.OperatorBetweenWords` | src/shell.c:28-42 | an operator touching a word on each side gives exactly three tokens: the first word, the operator, the second word |
| `Shell.HandleBuiltin` | src/shell.c:58-76 | `exit` ends the shell; `cd`, `help`, `jobs` and `history` return 1; a NULL or empty list and every other name return 0 |
| `Shell.BuiltinReturnCode` | src/shell.c:59-75 | when the name is not `exit` the function returns; it returns 1 exactly for `cd`, `help`, `jobs` and `history`, and 0 exactly for a NULL or empty list and every other name |
| `Shell.CdIsBuiltin` | src/shell.c:62-66 | a tokenized `cd /tmp` line is handled as a built-in |
| `Shell.BuiltinIgnoresArguments` | src/shell.c:59-75 | the decision depends on the command name only |
| `Execute.TrimLeadingSpaces` | src/execute.c:16 | the segment with its leading spaces removed; a definition |
| `Execute.Segments` | src/execute.c:12-21 | what `split_commands` stores: the first MAX_CMDS pipe-separated `strtok` tokens of the line, each trimmed; a definition |
| `Execute.TrimLeadingSpacesSuffix` | src/execute.c:16 | trimming removes a prefix made only of spaces and leaves no leading space |
| `Execute.SkipSpaces` | src/execute.c:16 | the index reached is the start of the trimmed segment: what follows it is the segment without its leading spaces |
| `Execute.SplitCommands` | src/execute.c:12-21 | the count is at most MAX_CMDS, the array's first `count` entries are the trimmed pipe-separated tokens of the line in order, and the rest of the array is untouched |
| `Execute.SegmentStep` | src/execute.c:14-19 | storing one token advances both the count and the tokens still to come: the stored string is the next segment |
| `Execute.SegmentsDone` | src/execute.c:14-19 | when the tokens run out or MAX_CMDS are stored, the count equals the number of segments |
| `Execute.TrimmedField` | src/execute.c:16 | a trimmed `strtok` token holds no pipe character |
| `Execute.SegmentsShape` | src/execute.c:12-21 | at most 10 segments; none holds a pipe character or starts with a space; each is its `strtok` token minus leading spaces |
| `Execute.PipeRunsCollapse` | src/execute.c:14-18 | two pipe characters in a row split exactly as one |
| `Execute.SegmentsOfJoin` | src/execute.c:15-17 | commands joined by pipe characters come back in order and trimmed; only the first 10 are kept and the rest are dropped |
| `Execute.TrailingPipeGivesEmptySegment` | src/execute.c:16 | the line `ls`, space, pipe, space gives the segments `ls ` and the empty string |
| `Execute.Scan` | src/execute.c:30-41 | the token loop of `parse_redirection` over a list of tokens: `<` and `>` set the input or output to the next token, or NULL when none follows, and skip that token; every other token is appended to the arguments; a definition |
| `Execute.Redirect` | src/execute.c:25-41 | the scan started from no arguments and both files NULL; a definition |
| `Execute.ParseStage` | src/execute.c:24-43 | the stage one segment describes: the scan of its `strtok` tokens on space, tab and newline; a definition |
| `Execute.ParseRedirection` | src/execute.c:24-43 | both files start NULL; the arguments and then NULL are written to `args`, and the rest of `args` is untouched; the files are those the token scan selects; the argument count must be below the array length |
| `Execute.RedirectAdvance` | src/execute.c:31-36 | consuming `<` or `>` and the file name after it (NULL at the end) sets that file and the scan goes on after them |
| `Execute.ArgAdvance` | src/execute.c:37-39 | a token that is not an operator is stored as the next argument, and the final argument list is longer than the ones stored so far |
| `Execute.ScanArgsNotOperators` | src/execute.c:31-38 | no argument is a bare `<` or `>` |
| `Execute.ScanPlainTokens` | src/execute.c:37-38 | tokens that are not operators are appended to the arguments in input order |
| `Execute.RedirectRender` | src/execute.c:24-43 | parsing inverts writing a stage out as its arguments, then `< in`, then `> out` |
| `Execute.ParseStageOfRendered` | src/execute.c:29-40 | the same for the text: a stage written with single spaces parses back to itself |
| `Execute.OperatorAsFileName` | src/execute.c:31-33 | the token after `<` is taken as the file name unconditionally: `< >` makes `>` the input file |
| `Execute.DanglingOperator` | src/execute.c:31-36 | an operator as the last token sets its file to NULL, even over a file set earlier |
| `Execute.NoInputKeeps` | src/execute.c:30-41 | a token list without `<` leaves the input file as it was before the scan |
| `Execute.NoOutputKeeps` | src/execute.c:30-41 | a token list without `>` leaves the output file as it was before the scan |
| `Execute.LastInputWins` | src/execute.c:31-33 | after `<` and a file name with no `<` later in the list, the input file is that name, whatever was set earlier |
| `Execute.LastOutputWins` | src/execute.c:34-36 | after `>` and a file name with no `>` later in the list, the output file is that name, whatever was set earlier |
| `Execute.LaterRedirectionWins` | src/execute.c:31-38 | an example: for the tokens `< a wc < b` the second `<` decides the input file, and `a<b` is one ordinary argument |
| `Execute.Pointers` | src/execute.c:38 | the argument slots `parse_redirection` writes: one non-NULL pointer per argument, in order; a definition |
| `Execute.Argv` | src/execute.c:98 | the argument list `execvp` reads from a pointer array: the strings before the first NULL; a definition |
| `Execute.ArgvOfPointers` | src/execute.c:42 | reading the vector up to its NULL, as execvp does, gives back exactly the arguments |
| `Execute.ArgvOfVector` | src/execute.c:42 | the same for the whole `args` array: the slots after the NULL are never read |
| `Execute.StdinFor` | src/execute.c:72-80 | the standard input of stage i: its input file, otherwise the read end of the previous stage's pipe when i > 0, otherwise the shell's own; a definition |
| `Execute.StdoutFor` | src/execute.c:83-91 | the standard output of stage i of n: its output file, otherwise the write end of its own pipe when it is not the last stage, otherwise the shell's own; a definition |
| `Execute.Plan` | src/execute.c:70-91 | the wiring of every stage by its position; it has one entry per stage; a definition |
| `Execute.StagesOf` | src/execute.c:47-55 | the stages of a line: each segment `split_commands` stores, parsed by `parse_redirection`; one stage per segment; a definition |
| `Execute.Carried` | src/execute.c:103-106 | the descriptor the parent carries into stage i: nothing for the first stage, the read end of pipe i - 1 otherwise; a definition |
| `Execute.Aborts` | src/execute.c:57-68 | whether a given failing call happens in a run of n stages: a `pipe` can fail only for a stage that is not the last, a `fork` for any stage; a definition |
| `Execute.Forked` | src/execute.c:57-68 | the number of children forked: the failing stage's index when the run aborts, all n stages otherwise; never more than n |
| `Execute.LeftOpen` | src/execute.c:57-106 | the pipe descriptors the parent holds on return: none on success; the carried read end after a failed `pipe`; that and both ends of the new pipe after a failed `fork` of a stage that made one; a definition |
| `Execute.Parsed` | src/execute.c:50-64 | the number of stages whose segment is parsed: one more than the failing stage when the run aborts, since parsing precedes `pipe` and `fork`, all n otherwise; at least the number forked and at most n |
| `Execute.ArgsFit` | src/execute.c:51-55 | the condition under which `args` is not overrun: every stage that is parsed has at most MAXARGS arguments; a definition used as a precondition |
| `Execute.ForkedPast` | src/execute.c:57-68 | a stage whose `pipe` and `fork` do not fail is forked, so more than i children are forked |
| `Execute.PipeFailure` | src/execute.c:57-61 | a failing `pipe` for a stage that is not the last aborts with i children forked and only the carried read end open |
| `Execute.ForkFailure` | src/execute.c:64-68 | a failing `fork` aborts with i children forked; the carried read end and, when a pipe was made, both of its ends stay open |
| `Execute.PlanStep` | src/execute.c:70-101 | launching stage i as the plan says extends the plan's first i launches to its first i + 1 |
| `Execute.PlanReadsPreviousPipe` | src/execute.c:72-80 | stage i reads a pipe exactly when it has no input file and i > 0, and then the read end of pipe i-1; no stage reads a write end |
| `Execute.PlanWritesOwnPipe` | src/execute.c:83-91 | stage i writes a pipe exactly when it has no output file and is not the last stage, and then the write end of its own pipe; no stage writes a read end |
| `Execute.PlanEnds` | src/execute.c:72-91 | redirection files take priority over pipes; otherwise the first stage inherits stdin and the last inherits stdout |
| `Execute.PlanConnectsNeighbours` | src/execute.c:57-91 | neighbouring stages with no file between them share one pipe: the writer's write end and the reader's read end |
| `Execute.ExamplePipeline` | src/execute.c:45-91 | the line `cat < in`, pipe, `wc` runs `cat` reading `in` and writing pipe 0, then `wc` reading pipe 0 and writing the inherited stdout |
| `Execute.ExecuteIoPipe` | src/execute.c:45-113 | the status is -1 exactly when a pipe or fork call fails; the forked children are wired as `Plan` says for the stages reached; on success the parent holds no pipe descriptor, and on failure it holds the carried read end and, after a failed fork, both ends of the new pipe |

## Left out

- The system calls are not modelled: `pipe`, `fork`, `open`, `dup2`, `close`, `execvp`, `exit` and `waitpid` in `execute_io_pipe` (src/execute.c:58-108). The model keeps the wiring decision, the parent's descriptor bookkeeping and the -1 returns. A failing `open` of a redirection file and a failing `execvp` end only the child.
- The per-stage `waitpid` (src/execute.c:108) is left out. It concerns process concurrency; with it, each stage finishes before the next one is forked.
- The child's closing of "unused" pipe ends (src/execute.c:94-95) is left out. It tests descriptors by truthiness, so descriptor 0 is never closed. On the last stage it closes `pipefd` values left over from the previous stage, or never set for a one-stage pipeline. This is a defect of the source. It needs real descriptor numbers, which this model does not have.
- ExecuteIoPipe: the child's stdin and stdout are reported as decisions. The model does not track which duplicated descriptors the child still holds after `dup2`.
- Heap allocation and freeing in `tokenize` (src/shell.c:15-19 and 47-48) are left out. The result is a sequence.
- The side effects of `handle_builtin` are left out: `chdir`, the messages, `exit(0)`, and the `history` listing. The `history` array is declared `extern` (src/shell.c:8-9) and is not part of this model. Only the decision is modelled.
- src/main.c is not part of this model. It is a read-eval loop over `read_cmd` and `execute` plus `free` calls, and neither function is among the files modelled.
- The background job table, the history ring buffer and if/then/else blocks are left out. include/shell.h declares only constants and a prototype for them (include/shell.h:15-16 and 27), and no implementation is modelled.
- `strtok`'s hidden global state and its writes of NUL into the command line are modelled on values. Each call is `Strtok` at an explicit position, and `split_commands` finishes its `strtok` sequence before `parse_redirection` starts a new one.
