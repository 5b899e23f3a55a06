# imgres: batch image downsizing, modelled in Dafny

`imgres.py` finds the image files that match a pattern and groups them by
folder: either the current directory alone, or every directory of a
bottom-up walk of the tree. For each folder it probes every file's size with
ImageMagick and, after an optional yes/no confirmation, shrinks every image
whose larger side exceeds a limit. The side that is pinned to the limit is
the width when the image is strictly wider than tall, else the height. A
resize step that raises is counted and the loop goes on. A failed probe, a
"no" at the confirmation prompt, or the end of keyboard input ends the whole
run.

The model covers the decision logic, with the outside world turned into
inputs:

- the directory listing (`os.listdir`) and the walk (`os.walk`) are
  sequences;
- the pattern test (`re.search`) and `os.path.isfile` are predicates;
- keyboard input is a sequence of answer lines;
- the probe command is a function from a path to its printed text or its
  failing exit status;
- the resize command is a function from a resize order to what
  `subprocess.call` does: return an exit status, or raise.

Modules:

- `Wrappers`: `Option` and `Result`.
- `Numerals`: Python's `int()` on ASCII text and `str()` on integers.
- `Confirmation`: `confirm`, meaning the prompt text and the answer loop
  (`Confirm`, a method with a `while true` loop). It is proved against
  `ConfirmSpec` and `AnswersRead`.
- `Probe`: `str.split('x')`, the "WxH" parse `ParseDims`, and the probe loop
  `ProbeFolder`, a method that fills `sizes`. It is proved against
  `ProbeAll`.
- `Resize`: the per-file decision `Decide` and the `-resize` geometry
  argument.
- `Grouping`: the `folder2files` dictionary as `Folders`, an insertion order
  plus a map:
  - `GroupFlat` is the flat mode. It matches base names and always has the
    single key `"."`.
  - `GroupRecursive` is the recursive mode. Every walked root becomes a key,
    and joined paths are matched. It is proved against `GroupWalk`.
- `Batch`: the per-folder driver.
  - `ProcessFolders` loops over the folders with the `exception_count`
    accumulator.
  - `HandleFolder` covers one folder: skip if empty, probe, confirm, resize.
  - `ResizeFolder` is the resize loop.
  - `ResizeImages` composes grouping and the driver.

  All of these are proved against the fold `RunOver`. `RunOver` describes
  the whole run as a `Run`: how it ended, the resize steps taken, the
  exception count and the number of answer lines read.
- `Scenarios`: an example run over three files, as a lemma.

Two consequences of the code are worth stating:

- The width is pinned only when `w > h` (`imgres.py:188`), so a square
  image has its height pinned (`Resize.DecideCases`).
- Only exceptions are counted (`imgres.py:196-197`). `subprocess.call`
  returns a non-zero exit status without raising (`imgres.py:189-193`), so
  a failed resize command is not counted (`Batch.ExitStatusIgnored`,
  `Batch.NonZeroExitNotCounted`).

## Model

| member | source | states |
|---|---|---|
| Confirmation.PromptRoundTrip | imgres.py:64-70 | The prompt is the caller's question ("Confirm" when none is given) followed by a suffix that brackets the default: y when the default is yes, n otherwise. Both the question and the default can be read back from the text. |
| Confirmation.ConfirmDecidedByFirst | imgres.py:72-82 | No result exactly when no answer is empty or one of y/Y/n/N, and then every line is read. Otherwise the result is the meaning of the first such answer: the default for an empty one, True for y/Y, False for n/N. Reading stops right after it, and every earlier answer was a retry. |
| Confirmation.ConfirmIgnoresLaterAnswers | imgres.py:72-82 | Once an answer decides, lines after it change neither the result nor how many lines are read. |
| Confirmation.Confirm | imgres.py:64-82 | The prompt shown is `PromptText` of the question and the default. The loop returns what `ConfirmSpec` says and reads `AnswersRead` lines. On a result, the last line read is the deciding answer and every earlier one is a retry. With no result, all lines were read (end of input). |
| Confirmation.DoctestSessions | imgres.py:52-60 | The sessions in `confirm`'s doctest: the two prompt texts, an empty answer giving the default either way, and "y" giving True. Also a retried answer followed by an empty one gives the default after two lines. |
| Numerals.ParseShow | imgres.py:170-171 | `int(str(n)) == n` for every integer (without Python's digit limit, see below), so any size the probe prints as a decimal reads back exactly. |
| Numerals.ParseIgnoresPadding | imgres.py:170-171 | Whitespace around a number does not change what `int()` reads. |
| Probe.SplitJoin | imgres.py:170-171 | Joining the pieces of `split('x')` with 'x' gives back the text, and no piece contains 'x'. |
| Probe.SplitAtFirst | imgres.py:170-171 | The first piece is the text before the first 'x'. There is a single piece exactly when there is no 'x'. Otherwise the remaining pieces are those of the text after the first 'x'. |
| Probe.ParseDimsFields | imgres.py:170-171 | The parse succeeds exactly when there is an 'x', the text before it is an integer, and the text between it and the next 'x' is an integer. Those two numbers are the width and the height. |
| Probe.ParsePrinted | imgres.py:168-171 | The probe's own "WxH" output of any size parses back to that size. |
| Probe.ProbeAll | imgres.py:165-172 | A successful probe loop yields exactly one size per file. |
| Probe.ProbeAllParallel | imgres.py:165-172 | The loop succeeds exactly when every file's probe does, and `sizes[i]` is the probe of `folder_list[i]`. |
| Probe.ProbeAllFirstFailure | imgres.py:166-171 | A failure names the position and path of the first file whose probe fails, and its error. Every earlier probe succeeded. |
| Probe.ProbeAllStopsAtFailure | imgres.py:166-171 | A failure within a prefix of the list is the failure of the whole loop: nothing after it is probed. |
| Probe.ProbeFolder | imgres.py:165-172 | The loop, appending to `sizes` one file at a time, gives the result `ProbeAll` describes. |
| Resize.DecideCases | imgres.py:182-195 | A file is resized exactly when its width or height exceeds the limit. The width is pinned exactly when it exceeds the limit and is strictly greater than the height. The height is pinned exactly when it exceeds the limit and is at least the width. The pinned side is a largest side. |
| Resize.GeometryRoundTrip | imgres.py:188-193 | The `-resize` geometry, "<limit>X" or "X<limit>", gives back the pinned side and the limit. |
| Grouping.MatchingMembers | imgres.py:133-138 | A name is kept exactly when it is listed, matches the pattern and is a regular file. |
| Grouping.MatchingAppend | imgres.py:133-149 | Filtering a concatenation keeps each part's matches, in order. |
| Grouping.GroupFlat | imgres.py:131-138 | Flat mode gives exactly the key ".", possibly with an empty list. The list holds the matching regular files in listing order. |
| Grouping.DistinctFirstOccurrences | imgres.py:139-142 | The distinct roots hold each root once, ordered by first occurrence. |
| Grouping.GroupWalkKeys | imgres.py:139-142 | In recursive mode every walked root is a key, even with an empty list, and nothing else is. Keys are ordered by the root's first appearance in the walk. |
| Grouping.GroupWalkValid | imgres.py:139-142 | The recursive dictionary has no repeated key, and its order and its keys agree. |
| Grouping.GroupWalkFiles | imgres.py:139-149 | Each key's list is what its root collects over the walk, in walk order. |
| Grouping.CollectedMembers | imgres.py:143-149 | A path is listed under a root exactly when it matches, is a regular file, and is the joined path of a file of a walk step yielding that root. |
| Grouping.AppendEntryFiles | imgres.py:143-149 | The inner loop appends the entry's matching joined paths to its root's list and changes nothing else. |
| Grouping.GroupRecursive | imgres.py:139-149 | The nested loops build the dictionary `GroupWalk` describes. |
| Batch.FailuresBound | imgres.py:196-197 | At most one exception per resize step. The count is zero exactly when no step raised, and it equals the number of steps exactly when every step raised. |
| Batch.ResizeFolder | imgres.py:181-198 | The resize loop takes one step per file, in list order, as `ResizeSteps` describes. It adds one to the exception count for each step that raised. |
| Batch.ResizeStepsSound | imgres.py:181-193 | Step i reports position i+1 of the folder's total. It holds the file's probed size, and it issues the command pinning the decided side exactly when the larger side exceeds the limit. |
| Batch.RunOverStops | imgres.py:153-178 | Once a folder has ended the run, later folders change nothing. |
| Batch.RunStepsSound | imgres.py:153-195 | Every step of a run belongs to one of the run's folders. It reports that folder's file at its 1-based position with the size the probe gave for it. It resizes exactly when the larger side exceeds the limit, pinning the width exactly when w > h. |
| Batch.RunExceptions | imgres.py:152-198 | The final exception count is the number of resize steps whose body raised. |
| Batch.ExitStatusIgnored | imgres.py:185-198 | Two resize commands that raise on the same orders give runs with the same ending, answers read, step count and exception count, whatever exit statuses they return. |
| Batch.NonZeroExitNotCounted | imgres.py:189-197 | A resize command that never raises leaves the exception count at zero, whatever it exits with. |
| Batch.NoConfirmationNoQuestions | imgres.py:176-178 | Without `-c` no answer is read, and the run never ends on a "no" or on the end of input. |
| Batch.FinishedCoversAll | imgres.py:153-198 | A run that finishes has probed every folder without failure. Its steps are, in the dictionary's order, each folder's resize steps (one per listed file, in list order, with the probed sizes), and there are as many as listed files. |
| Batch.HaltedSkipsRest | imgres.py:158-178 | A run that stops does so at a non-empty folder of the order, and every earlier folder finished. It keeps exactly the steps and exceptions from before that folder, so none of that folder's files or any later ones is resized. A probe crash carries that folder's first probe failure, and a "no" or end of input needs `-c`. |
| Batch.HandleFolder | imgres.py:157-198 | One folder's body gives the outcome `VisitFolder` describes:<br>• an empty folder is skipped;<br>• a probe failure ends the run;<br>• with `-c`, the end of input or a "no" ends the run;<br>• otherwise every file gets its resize step.<br>The exception count grows by the steps that raised. |
| Batch.ProcessFolders | imgres.py:152-198 | The per-folder loop over the dictionary's order gives the run `RunOver` describes. This includes the answer lines each folder's confirmation consumes and the exception count. |
| Batch.ResizeImages | imgres.py:130-198 | Grouping either way yields only folders that are keys, and the whole script gives the run `RunOver` describes over them. |
| Scenarios.ExampleRun | imgres.py:130-198 | An example run: pattern `\.jpg$`, limit 1024, a.jpg 2000×1000, b.png 500×500, c.jpg 800×1600. b.png is not listed, a.jpg has its width pinned and c.jpg its height, and no exception is counted. |

## Left out

- Option parsing (`getopt`, `int(args[1])`, the help text) is not modelled. The limit and the `-c` flag are inputs (`Settings`), and the pattern is a predicate.
- Logging and printing are console and file I/O, and are not modelled. This covers `log`, the log file, the progress and "No matching files..." lines, the retry message "please enter y or n." and the final summary line. An exception raised by `log` inside the `try` of the resize loop is therefore not modelled either.
- The ImageMagick commands and their shell quoting are not modelled. The probe and the resize calls are oracles. A resize order records the path, the pinned side and the limit, and `Resize.Geometry` gives the geometry text that the command line carries.
- `check_output`'s UTF-8 decoding is not modelled, and the probe output is taken as text.
- `os.listdir` and `os.walk`, including the walk's bottom-up order, are inputs. `os.path.isfile` and `re.search` with `IGNORECASE` are predicates. `os.path.join` is modelled for POSIX paths only.
- Numerals.ParseShow, Numerals.ParseInt: Python's limit on integer string conversion is not modelled. Python 3.11 and later raise ValueError when `int()` reads, or `str()` writes, more than 4300 digits. So a probe output that long aborts the script, but the model reads it, and `ParseShow` holds for numbers of every length.
- `Numerals.ParseInt` does not accept underscores between digits, non-ASCII digits or non-ASCII whitespace, all of which Python's `int()` accepts. The probe prints plain ASCII decimals.
- The run's halts (a "no", the end of input, a probe failure) are outcomes of the model. The process exit and the traceback are not modelled.
- Floating point, concurrency and the in-place overwrite of the image files themselves are outside the model.
