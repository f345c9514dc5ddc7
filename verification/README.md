# oxide: a verified model of the shell's command front end

oxide is a small interactive shell. It reads a line and splits it into
words. It recognises the builtins `exit`, `echo`, `pwd`, `type` and `cd`.
Any other first word is run as an external program, and a `>` or `1>`
operator sends standard output to a file. This project models the pure
front end of `src/lib.rs` in Dafny and proves what it promises:

- `tokenizer.dfy` has the quote- and escape-aware tokenizer. It holds a
  one-character step function (`Step`) and its fold (`Scan`, `Tokens`). The
  imperative loop `Tokenize` keeps the same three flags, word buffer and word
  list as local variables, and is proved to compute `Tokens`.
- `redirect.dfy` has `split_redirect`: the first `>` or `1>` that has a
  word after it.
- `command.dfy` has the `ShellCommand` variants, `parse` and `is_builtin`.
- `dispatch.dfy` has what `execute` decides for each command. The process
  state it reads is passed in as an `Env`: the working directory, `HOME`,
  the directory test and the executable search. What it does is returned as
  an `Effect` value instead of being performed. The result also carries the
  boolean `execute` returns.
- `wrappers.dfy` (`Option`) and `words.dfy` (`Concat`, `Join`) are helpers.

Points about the code worth knowing:

- Only `>` and `1>` are redirection operators. `>>`, `1>>`, `2>` and `2>>`
  are ordinary words.
- `Type` and `Cd` carry only their operand. Words after it are dropped by
  `parse`, so `type` and `cd` are never redirected. `pwd` is never
  redirected either.
- An external program with a redirection writes its standard output to a
  file that is created or truncated. Its standard error goes to the
  terminal.

## Model

| member | source | states |
|---|---|---|
| `Tokenizer.Tokenize` | src/lib.rs:118-161 | The loop over the characters returns exactly `Tokens(input)`. The result has no empty word, and every output character is a distinct character of the input. |
| `Tokenizer.Step` | src/lib.rs:126-153 | One character either completes the buffered word, which is never empty, or leaves the word list alone and appends at most that character. It keeps the scanner's invariant. |
| `Tokenizer.Tokens` | src/lib.rs:118-161 | `tokenize` never emits an empty word, neither at a blank nor at the end of input. The multiset of output characters is contained in that of the line, so the words together are no longer than the line. |
| `Tokenizer.ScanValid` | src/lib.rs:132-153 | Every state reached keeps its invariant: the quote flags are never both set, no backslash is pending inside single quotes, and no completed word is empty. |
| `Tokenizer.EscapeIsVerbatim` | src/lib.rs:126-143 | Outside single quotes, a backslash followed by any character appends that character to the word. The pending flag is cleared and the quote state is unchanged. |
| `Tokenizer.SingleQuotesAreLiteral` | src/lib.rs:132-152 | Inside single quotes, every character except `'` is appended literally. That includes backslash, `"`, space and tab. |
| `Tokenizer.DoubleQuotesAreLiteral` | src/lib.rs:132-152 | Inside double quotes with no pending backslash, every character except `"` and `\` is appended literally. That includes `'`, space and tab. |
| `Tokenizer.TokensOfPlainLine` | src/lib.rs:145-158 | On a line with no quote or backslash, the words are the pieces between spaces and tabs with the empty pieces dropped. |
| `Tokenizer.EscapedRoundTrip` | src/lib.rs:125-158 | Non-empty words with a backslash before every character, joined by spaces, tokenize back to the same words. |
| `Tokenizer.SingleQuotedRoundTrip` | src/lib.rs:125-158 | Non-empty words without `'`, each between single quotes and joined by spaces, tokenize back to the same words. |
| `Tokenizer.BlanksCollapse` | src/lib.rs:145-150 | The empty line gives no words, and `a  b` gives `a`, `b`. |
| `Tokenizer.SingleQuotesKeepBlank` | src/lib.rs:133-135 | `'a b'` gives the one word `a b`. |
| `Tokenizer.EscapedQuoteInsideDoubleQuotes` | src/lib.rs:126-143 | `"a\"b"` gives the one word `a"b`. |
| `Tokenizer.BackslashEscapesBlank` | src/lib.rs:126-130 | `a\ b` gives the one word `a b`. |
| `Tokenizer.UnterminatedQuoteIsAccepted` | src/lib.rs:132-158 | `'a b` with no closing quote gives the one word `a b`. |
| `Tokenizer.TrailingBackslashIsAccepted` | src/lib.rs:141-158 | `a\` with nothing after the backslash gives the one word `a`. |
| `Redirect.FirstOperator` | src/lib.rs:164 | Returns the index of the first `>` or `1>`, or none exactly when no word is an operator. |
| `Redirect.SplitRedirect` | src/lib.rs:163-170 | There is a target exactly when the first operator is not the last word. The operands are then the words before it and the target is the word after it; otherwise the list is returned whole. The operands are always a prefix, and with a target they hold no operator. |
| `Redirect.OnlyFirstOperatorCounts` | src/lib.rs:164-166 | Once a target is found, appended words, further operators included, change nothing. |
| `Redirect.NoOperatorNoRedirect` | src/lib.rs:169 | A list with no operator comes back unchanged with no target. |
| `Redirect.AppendIsNotAnOperator` | src/lib.rs:164 | In `x >> f > g`, `>>` is an operand and `g` is the target. |
| `Redirect.TrailingOperatorIsKept` | src/lib.rs:165-169 | An operator in the last position stays among the operands, with no target. |
| `Command.IsBuiltin` | src/lib.rs:114-116 | A name is a builtin exactly when it is one of `exit`, `echo`, `pwd`, `type` and `cd`, compared case-sensitively. |
| `Command.Parse` | src/lib.rs:16-33 | A first word is a builtin exactly when `parse` does not make it `External`. Only a lone `type` or `cd` gives `Empty`. The command keeps a prefix of the words, and `Echo` and `External` keep all of them. |
| `Command.ParseSpelling` | src/lib.rs:16-33 | Every command except `Empty` is read back from its own words, as long as an external program's name is not a builtin name. |
| `Command.ParseIgnoresTrailingWords` | src/lib.rs:17-29 | `exit`, `pwd`, `type x` and `cd x` parse the same whatever words follow. |
| `Dispatch.TypeMessage` | src/lib.rs:55-63 | The message starts with the name. It is `<name> is a shell builtin` for a builtin, `<name> is <path>` when the search finds the name, and `<name>: not found` otherwise. |
| `Dispatch.CdTarget` | src/lib.rs:67-72 | `~` goes to `HOME`, or to `/` when `HOME` is unset. Any other path is used as given. |
| `Dispatch.Execute` | src/lib.rs:35-111 | The loop stops exactly on `Exit`. Only `Exit` and `Empty` do nothing. A process runs exactly for a found external program, with a prefix of its words. The directory changes only for `cd` to a directory. Only `echo` writes a line into a file. Per command: `echo` writes its operands joined by spaces into the redirect target or to the terminal. `pwd` prints the working directory. `type` prints `TypeMessage`. `cd` changes to `CdTarget`, or prints `cd: <target>: No such file or directory`. An external program is reported as not found, or runs with its operands and its standard output going to the target. |
| `Dispatch.TypeAgreesWithParse` | src/lib.rs:55-63 | Unless the search answers with the text `a shell builtin`, `type` calls a name a shell builtin exactly when `parse` does not run that name as an external program. |
| `Dispatch.BuiltinNeedsNoSearch` | src/lib.rs:57-58 | The answer for a builtin does not depend on the executable search. |
| `Dispatch.EchoPrintsWords` | src/lib.rs:41-46 | `echo` with no operator prints its words joined by single spaces to the terminal. |
| `Dispatch.EchoIntoFile` | src/lib.rs:41-46 | `echo hi > out.txt` writes the line `hi` into `out.txt` and nothing to the terminal. |
| `Dispatch.UnknownProgramIsReported` | src/lib.rs:83-89 | A program the search cannot find is reported as `<program>: command not found` on the terminal, even with a redirection, and is not run. |
| `Dispatch.ProgramRunsWithOperands` | src/lib.rs:83-96 | A program that is found runs with the words before the first operator, and its standard output goes to the target. |
| `Dispatch.CdToMissingDirectory` | src/lib.rs:74-80 | `cd` to a path that is not a directory prints `cd: <path>: No such file or directory` and does not change directory. |
| `Dispatch.PwdAndTypeIgnoreRedirection` | src/lib.rs:49-64 | `pwd` prints the working directory to the terminal and `type` writes to no file, whatever words follow them. |

## Left out

- Printing and writing files (`println!`, `eprint!`, `File::create`, `writeln!`, `write_or_print`). These are I/O. The model returns them as `Effect` values: a `WriteLine` is a line with its newline, written to the file when one is given and to standard output otherwise.
- Spawning processes and the executable search. These are foreign calls. The search is the `findExecutable` oracle in `Env`. A `Run` effect stands for the spawn, with the capture and routing of its output.
- The working directory, `HOME` and the directory test. These are ambient OS state and become the `cwd`, `home` and `isDir` fields of `Env`. The `cd: <error>` message printed when `set_current_dir` fails depends on the OS, so it is not modelled beyond the `ChangeDir` effect.
- Panics from `unwrap` (`current_dir` in `pwd`, spawning a program, creating a redirect file). These are I/O failures that abort the process, and the model has no such failures.
- Lossy UTF-8 decoding of captured output. It is library behaviour on bytes and has no bearing on these rules.
- The prompt and read loop of src/main.rs and its whitespace splitting. That is I/O plumbing. `tokenize` is modelled on its own, since the read loop does not call it.
