# mcp-file-server: a Dafny model of the confinement and command-result logic

The file server offers list/read/write/delete tools and a `run_command` tool,
all confined to the base directory `/data`. This project models the decision
logic of `server.py` that sits between the tool arguments and the operating
system, and proves what it guarantees:

- **Path confinement** (`Paths`, `Confinement`): POSIX `os.path.join`,
  `posixpath.normpath` (including its rule that exactly two leading slashes
  are kept), and the plain string test `startswith("/data")` that every file
  tool and `run_command`'s `cwd` apply. The test is reproduced as written: it
  is a string-prefix test, so `../database` normalises to `/database` and is
  accepted, as is every sibling of `/data` whose name starts with `data`
  (`Confinement.ConfineAcceptsSibling`); `Confinement.ConfineAcceptsIff`
  states the rule exactly (single leading slash, first component starting with
  `data`). It is lexical: symbolic links are not followed.
- **Line truncation** (`OutputLimit`): `_truncate_lines` over Python's
  `str.split("\n")` / `"\n".join`, modelled in `PyText` with their round trips.
- **Output-limit configuration** (`Config`): `_parse_positive_int` (strip,
  optional sign, ASCII digits), the config-file lookup as a method with the
  source's early returns, and `_resolve_max_output_lines` as a method with the
  source's `for` loop over the two environment variables, both proved against
  the fallback chain `MaxOutputLines`.
- **Deadline resolution** (`Timeout`): `EffectiveTimeout` over `timeout` and
  `timeout_ms`, each absent, a number, or a value `float()` rejects.
- **Result assembly** (`CommandService.RunCommand`): the step-by-step local
  updates of `run_command` (working directory, seconds, effective timeout),
  with the process outcome `Completed | TimedOut | SpawnFailed` given as an
  input and the JSON object modelled as the datatype `CommandResult`.

Behaviour of `server.py` a reader may not expect, which the model reproduces:

- A resolved timeout that is not positive yields no deadline (`None`), not the 60-second default (`Timeout.NonPositiveMeansNoDeadline`).
- A timed-out run reports `stderr` as `"Command timed out"`, not as empty.
- A spawn failure reports only `error`, `cwd`, `command`, the three truncation flags (all false) and `max_lines`.

Environment variables, the config file's content and the process outcome are
parameters: `env` is a map from names to values, `cfg` the parsed config file
(None when missing, unreadable or not JSON), `outcome` what the process did.

## Model

| member | source | states |
|---|---|---|
| PyText.Split | server.py:285 | `str.split` yields at least one piece and no piece contains the separator |
| PyText.SplitCount | server.py:285-286 | there is one more piece than there are separators |
| PyText.JoinSplit | server.py:285-288 | joining the pieces of a split gives the text back |
| PyText.SplitJoin | server.py:285-288 | splitting a join of separator-free pieces gives the pieces back |
| PyText.JoinTakePrefix | server.py:288 | the join of the first k pieces is a prefix of the join of all |
| PyText.Join | server.py:288 | `str.join`; it is the inverse of `Split` by `JoinSplit` and `SplitJoin` |
| Paths.PathJoin | server.py:79 | an absolute second argument replaces the base; otherwise the result is the base, then exactly one `/` unless the base is empty or already ends with one, then the argument |
| Paths.NormPath | server.py:79 | normalisation never yields the empty string |
| Paths.ComponentsClean | server.py:79 | normalisation leaves no empty, `.` or slash-bearing component, no `..` under a root, and `..` only as a leading run otherwise |
| Paths.NormPathIdempotent | server.py:79 | `normpath(normpath(p)) == normpath(p)` for every string |
| Paths.NormPathClean | server.py:79 | for every string, the normalised path re-reads to clean components with the same root |
| Confinement.ConfineEmpty | server.py:79-82 | the empty path is accepted and is exactly `/data` |
| Confinement.ConfineRelativeWithoutParent | server.py:79-82 | a relative path with no `..` component is accepted and resolves to `/data` or below `/data/` |
| Confinement.ConfineAcceptsIff | server.py:205-206 | accepted iff the joined path has one leading slash and its first normalised component starts with `data` |
| Confinement.ConfinedIsNormal | server.py:205-211 | an accepted path starts with `/data` and is already normalised |
| Confinement.ConfineParentThen | server.py:79-82 | `../name` normalises to `/name` and is accepted iff that starts with `/data` |
| Confinement.ConfineAcceptsSibling | server.py:205-206 | `../name` for any name starting with `data` other than `data` itself (such as `../database`) is accepted as `/name`, which is neither `/data` nor below `/data/` |
| Confinement.ConfineRejectsEscape | server.py:137-141 | `../name` for a name not starting with `data` (such as `../etc`) is rejected |
| Confinement.ConfineRejectsAbsolute | server.py:112-116 | an absolute `/name` with a name not starting with `data` (such as `/etc`) is rejected |
| Paths.Confine | server.py:79-82 | the join-normalise-`startswith` test; its properties are stated by `Confinement.ConfineAcceptsIff`, `ConfinedIsNormal`, `ConfineEmpty`, `ConfineRelativeWithoutParent` and the three `../name` and `/name` lemmas |
| Confinement.GuardFileTool | server.py:79-83 | each file tool proceeds iff the joined path has one leading slash and a first normalised component starting with `data`, and then with a target that starts with `/data` and is already normalised; otherwise it returns its own rejection text (also lines 112-116, 137-141, 161-165) |
| OutputLimit.SliceTo | server.py:288 | Python `lines[:n]` is a prefix of `lines` holding the first n pieces (all of them when there are fewer), and for negative n all but the last -n |
| OutputLimit.TruncateLines | server.py:282-289 | `_truncate_lines`; its properties are stated by `TruncateUnchanged`, `TruncatedIsFirstLines`, `TruncatePrefix`, `TruncateBounded`, `TruncateIdempotent` and `CommandService.CompletedStreamBounds` |
| OutputLimit.LineCount | server.py:285-286 | the number of lines is the number of newlines plus one |
| OutputLimit.TruncateUnchanged | server.py:282-287 | unflagged iff the text is empty or has fewer than `max_lines` newlines, and then it is returned unchanged |
| OutputLimit.TruncatedIsFirstLines | server.py:285-289 | for a positive limit, when flagged, the result's lines are exactly the first `max_lines` lines of the input |
| OutputLimit.TruncatePrefix | server.py:282-289 | for every limit, negative ones included, the result is a prefix of the input |
| OutputLimit.TruncateBounded | server.py:282-289 | for a positive limit the result has at most `max_lines` lines |
| OutputLimit.TruncateIdempotent | server.py:282-289 | for a non-negative limit, truncating the result again returns it unchanged and unflagged |
| Config.TrimStart | server.py:27 | leaves a suffix of the text that does not start with white space |
| Config.TrimEnd | server.py:27 | leaves a prefix of the text that does not end with white space |
| Config.TrimStartRemovesSpace | server.py:27 | only white space is removed at the start |
| Config.TrimEndRemovesSpace | server.py:27 | only white space is removed at the end |
| Config.LeadingSpaceTrimmed | server.py:27 | any run of white space before a non-space character is removed by `lstrip` |
| Config.TrailingSpaceTrimmed | server.py:27 | any run of white space after a non-space character is removed by `rstrip` |
| Config.StripPadded | server.py:27 | `strip` removes exactly the white space around text whose first and last characters are not white space |
| Config.Strip | server.py:27 | `str.strip`; what it keeps and removes is stated by `TrimStart`, `TrimEnd`, their `RemovesSpace` lemmas and `EdgesUnstripped` |
| Config.ParseSigned | server.py:27 | `int()` on stripped text: an optional sign and digits; acceptance stated by `ParseDigits`, `ParsePlusDigits`, `ParseNegatedDigits` and `ParseIntDecimal`, rejection of everything else by `ParseSignedShape` |
| Config.ParseInt | server.py:27 | `int()` on text, white space around ignored; acceptance stated by `PaddedTextAccepted`, `ParseDigits`, `ParsePlusDigits`, `ParseNegatedDigits` and `ParseIntDecimal`, rejection of malformed text by `ParseIntShape`, `ForeignCharRejected` and `InnerSpaceRejected` |
| Config.ParseDigits | server.py:27 | a string of digits parses as its decimal value |
| Config.ParseNegatedDigits | server.py:27 | a minus sign followed by digits parses as the negated value |
| Config.ParsePlusDigits | server.py:27 | a plus sign followed by digits parses as their value |
| Config.StripWindow | server.py:27 | what `strip` keeps is a contiguous window of the text, starting after the leading white space |
| Config.StripTrailing | server.py:27 | everything after that window is white space |
| Config.ParseSignedShape | server.py:27 | stripped text that parses is a sign or digit, then only digits, with at least one digit |
| Config.ParseIntShape | server.py:27 | text that parses is white space, an optional sign, one or more digits, then white space, and nothing else |
| Config.ForeignCharRejected | server.py:27-30 | a character that is not white space, a digit or a sign (as in `12a`, `1.5`, `0x10`) makes the text unparseable, so `_parse_positive_int` gives None |
| Config.InnerSpaceRejected | server.py:27-30 | white space between two other characters (as in `5 5`) makes the text unparseable |
| Config.ParsePositiveText | server.py:25-30 | None or an integer above zero, present exactly when the text parses to a positive integer, and then that very integer |
| Config.NatToDecimal | server.py:27 | `str` of a natural number is non-empty decimal digits without a leading zero |
| Config.DecimalValue | server.py:27 | the digits `str` writes evaluate to the number |
| Config.ParseIntDecimal | server.py:27 | `int(str(i)) == i` for every integer |
| Config.IntToDecimal | server.py:27 | `str()` of an integer; `ParseIntDecimal` proves `int` undoes it and `NatToDecimal` gives its digit form |
| Config.ParsePositiveValue | server.py:25-30 | a JSON value yields None or an integer above zero |
| Config.ParsePositiveInteger | server.py:25-30 | a JSON integer is taken as it is when positive and ignored otherwise |
| Config.EmptyTextRejected | server.py:25-30 | the empty text yields None |
| Config.ZeroTextRejected | server.py:25-30 | zero, in any number of digits, yields None |
| Config.NegativeTextRejected | server.py:25-30 | a negative number yields None |
| Config.PaddedTextAccepted | server.py:27-28 | any amount of white space before and after a positive digit string is ignored, and the number itself is returned |
| Config.FirstSome | server.py:55-67 | nothing is chosen iff every candidate is absent; otherwise a candidate is chosen |
| Config.FirstSomeIsFirst | server.py:55-67 | the chosen value is the one at the first present position |
| Config.NestedMaxLines | server.py:42-47 | `run_command.max_lines` of an object config whose `run_command` is an object; positive by `ParsePositiveValue`, ordered by `LoadMaxLinesFromConfig` |
| Config.TopLevelMaxLines | server.py:48-49 | top-level `max_lines` of an object config; positive by `ParsePositiveValue`, ordered by `LoadMaxLinesFromConfig` |
| Config.LoadMaxLinesFromConfig | server.py:40-53 | nested `run_command.max_lines` (only when `run_command` is an object) before top-level `max_lines`; any value is positive |
| Config.ResolveMaxOutputLines | server.py:55-67 | the loop over both environment variables, then the file, then 1000, computes the fallback chain and is at least 1 |
| Config.EnvMaxLines | server.py:58-59 | an environment variable's contribution, None when it is unset; its place in the chain is stated by `MaxOutputLinesOrder` |
| Config.MaxOutputLines | server.py:55-67 | the fallback chain; `ResolveMaxOutputLines` computes it, `MaxOutputLinesPositive` and `MaxOutputLinesOrder` state its properties |
| Config.MaxOutputLinesPositive | server.py:55-67 | the resolved limit is always at least 1 |
| Config.MaxOutputLinesOrder | server.py:55-67 | each source wins exactly when every earlier one yields nothing, with 1000 when none yields |
| Timeout.ToFloat | server.py:214-218 | `_to_float`: None stays None, an unconvertible value gives None; stated by `UnconvertibleMeansNoDeadline` and `MillisecondsFallback` |
| Timeout.EffectiveTimeout | server.py:220-228 | the effective timeout; its properties are stated by the five lemmas below |
| Timeout.DeadlinePositive | server.py:226 | a deadline, when there is one, is positive |
| Timeout.DefaultDeadline | server.py:221-228 | neither argument given: 60 seconds |
| Timeout.SecondsWin | server.py:221-226 | a positive converted `timeout` wins whatever `timeout_ms` is |
| Timeout.MillisecondsFallback | server.py:222-226 | with `timeout` absent or unconvertible, `timeout_ms / 1000` is used when positive, else no deadline |
| Timeout.NonPositiveMeansNoDeadline | server.py:226 | a chosen value at or below zero gives no deadline |
| Timeout.UnconvertibleMeansNoDeadline | server.py:214-226 | arguments given but none convertible: no deadline |
| CommandService.CwdRejectedBy | server.py:204-206 | a non-empty cwd that fails the confinement test; `EmptyCwdUsesBase` and `RunCommand` state its effect |
| CommandService.WorkingDir | server.py:203-211 | the working directory always starts with `/data` |
| CommandService.RunCommand | server.py:202-317 | rejected cwd: no process and an error echoing the attempted cwd; otherwise the process gets the confined directory and the resolved deadline, and the result has the timeout, completed or error shape with `truncated` the OR of the stream flags and never set on a timeout |
| CommandService.EmptyCwdUsesBase | server.py:203-204 | an empty cwd skips the check and runs in `/data` |
| CommandService.CompletedStreamBounds | server.py:291-305 | each reported stream is a prefix of the process output, of at most `max_lines` lines, flagged exactly when it had more |

## Left out

- File system operations of `list_files`, `read_file`, `write_file` and `delete_file` (listing, sizes, reading, creating directories, writing, removing) are I/O; only their shared confinement check is modelled.
- Process execution (shell spawning, the new session and process group, feeding stdin, waiting under the deadline, killing the group or the process, reaping) is concurrency and operating-system control; its result is the `ProcessOutcome` input.
- CommandService.RunCommand: the outcome is an independent parameter, so the model does not capture how the process's behaviour depends on the spawn request; any exception raised while running (not only at spawn) is the `SpawnFailed` case.
- Partial output captured before a timeout kill is discarded by the code, so `TimedOut` carries none.
- UTF-8 decoding with replacement of process output; streams are decoded strings.
- JSON serialisation of the result and JSON parsing of the config file; the result is a datatype and the file's content the `Json` input.
- Reading the environment and locating the config file (`FILE_SERVER_CONFIG_PATH`, `config.json` beside the server, `is_file`, `open`); their results are the `env` and `cfg` inputs.
- Config.ParsePositiveText: does not model the limit CPython 3.11 and later (and security releases of earlier versions) put on integer text, 4300 digits by default: such text, and `str()` of a JSON integer that long, raise ValueError in the code and give None, while the model parses them; the limit depends on the interpreter version and on `PYTHONINTMAXSTRDIGITS`, which are outside the model.
- Config.ParsePositiveText: does not accept what Python's `int()` also accepts beyond ASCII (underscores between digits, non-ASCII digits, non-ASCII white space), because only the ASCII form is modelled.
- Timeout.EffectiveTimeout: timeouts are exact reals; `float()` parsing, `inf`, `nan` and IEEE rounding of `timeout_ms / 1000` are not modelled.
- Symbolic links: confinement is lexical, as in the code.
- The FastMCP tool registration and the stdio transport.
