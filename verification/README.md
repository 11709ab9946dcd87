# swish job control, modelled in Dafny

swish is a small job-control shell. Each input line is split on spaces and
dispatched on its first token. That token is either one of the built-ins
`pwd`, `cd`, `exit`, `jobs`, `fg`, `bg`, `wait-for` and `wait-all`, or an
external command. An external command runs in the foreground, unless the line
ends in a separate `&` token. A foreground command gets the terminal, and
the shell waits for it. If that child stops, it is recorded in the job table
as STOPPED. A background command is recorded as BACKGROUND and not waited for.

This project models three pieces of that shell:

- **The job table and its state machine.** The table is a `seq<Job>` of
  `(pid, name, status)` records. The terminal's foreground process group
  (`Owner`: the shell or a child's group) is carried beside it in `State`.
  Background and foreground launch, `resume_job` (fg and bg),
  `await_background_job` and `await_all_background_jobs` are pure
  transitions over that state. Each `fork`, `kill`, `tcsetpgrp` and
  `waitpid` is an input instead of a call (module `Os`).
- **The redirection planning of `run_command`.** This is the input file, the
  output file and its mode, and the argv that reaches `execvp`.
- **Line handling in `main`.** This covers the newline cut, `tokenize`,
  built-in dispatch, the trailing-`&` test, `jobs` output and the exit status.

Modules follow the program: `JobTable` holds the operations of `job_list.c`,
`Tokens` holds `tokenize`, `strvec_find` and the newline cut, `Redirect`
holds `run_command`, `JobControl` holds `resume_job` and the two waits,
`Listing` holds the `jobs` output and `Shell` holds `main`.

`job_list.c` and `string_vector.c` are not part of this model. Where a
call site relies on more than a plain definition, the model's operation
carries that as a contract (`Remove`, `RemoveByStatus`, `Find`). `Get` and
`Add` are plain definitions in `JobTable`, and so is `strvec_take` (a
sequence prefix). What they stand for:

- `job_list_get` gives nothing for an index outside the table.
- `job_list_remove(i)` deletes position i and moves later entries down.
- `job_list_remove_by_status` keeps the survivors in order.
- `job_list_add` appends at the tail.
- `strvec_find` returns the first index, or -1.
- `strvec_take(v, n)` keeps the first n tokens.

Behaviour that the model keeps as written:

- `await_background_job` leaves a job that stopped tagged BACKGROUND
  (`JobControl.AwaitJobLeavesStoppedJobBackground`). `await_all_background_jobs`
  does retag such a job.
- The terminal is not taken back when `kill` or `waitpid` fails in
  `resume_job`, or when `waitpid` fails after a foreground launch. The owner
  stays the child's group (`JobControl.ResumeForeground`,
  `Shell.LaunchForeground`).
- The line holding no token is not skipped. It ends the shell with status 1,
  so main's `tokens.length == 0` branch is never taken (`Shell.Step`).
- Removal cannot fail on the paths that call it, because the index has
  already been checked. The model keeps the source's failure branches anyway:
  -1 in `resume_job`, and 0 with nothing removed in `await_background_job`.

## Model

| member | source | states |
|---|---|---|
| JobTable.Remove | swish_funcs.c:158-164 | removal succeeds exactly for an index inside the table; earlier entries stay at their positions and every later entry moves down by one |
| JobTable.RemoveThenReinsert | swish_funcs.c:158-164 | putting the removed entry back at its old position gives the original table, so removal loses nothing else |
| JobTable.RemoveByStatus | swish_funcs.c:234-235 | an entry survives exactly when it was in the table with a different status; the result is no longer than the input |
| JobTable.RemoveByStatusAppend | swish_funcs.c:234-235 | removal by status distributes over concatenation, so survivors keep their relative order |
| JobTable.AddFreshKeepsDistinct | swish.c:147-148 | appending a job whose pid is not yet tracked keeps all pids distinct |
| JobTable.RemoveKeepsDistinct | swish_funcs.c:158-164 | removing one entry keeps all pids distinct |
| JobTable.RemoveByStatusKeepsDistinct | swish_funcs.c:234-235 | removing by status keeps all pids distinct |
| Tokens.NewlineAt | swish.c:38-43 | the loop stops at a newline with no newline before it, scanning past any other byte |
| Tokens.CString | swish_funcs.c:22-23 | strtok sees the buffer only up to its first NUL byte: a NUL-free prefix that stops at a NUL or at the end |
| Tokens.StripNewline | swish.c:38-45 | the command tokenize receives is the NUL-free, newline-free prefix of the line that stops at its first newline or NUL byte |
| Tokens.Words | swish_funcs.c:22-35 | every token is non-empty and space-free; there are no tokens exactly when the line holds nothing but spaces |
| Tokens.WordsOfJoin | swish_funcs.c:22-35 | splitting tokens joined by single spaces gives the same tokens back, in order |
| Tokens.WordsAtSpace | swish_funcs.c:22-35 | a space before the rest of a line yields no token: splitting skips it |
| Tokens.WordsAtRun | swish_funcs.c:22-35 | for any line, a maximal space-free run is the next token, and splitting continues after it; with WordsAtSpace this makes the tokens exactly the maximal runs in line order |
| Tokens.Tokenize | swish_funcs.c:22-35 | the strtok loop returns -1 with no tokens exactly for a line of spaces, otherwise 0 with the maximal space-free runs |
| Tokens.Find | swish_funcs.c:57-59 | -1 exactly when the token is absent, otherwise the index of its first occurrence |
| Tokens.FindIsFirst | swish_funcs.c:57-59 | any first occurrence is the index strvec_find returns |
| Redirect.InputFile | swish_funcs.c:57-73 | there is an input file exactly when a `<` is present; it is the token after the first `<` |
| Redirect.OutputFile | swish_funcs.c:58-101 | the token after the first `>` is opened to truncate; only without any `>` is the token after the first `>>` opened to append; no output file without either |
| Redirect.ExecArgv | swish_funcs.c:103-117 | argv is the tokens before the first `<` if any, else before the first `>`, else before the first `>>`, else all tokens; it is a prefix stopped at an operator |
| Redirect.RunCommand | swish_funcs.c:57-101 | the child fails before exec exactly when an open or dup2 it attempts fails; an input failure comes first; otherwise it execs with the plan |
| Redirect.ArgvBeforeFirstOperator | swish_funcs.c:103-110 | the corrected argv: the prefix free of operators that stops at the first operator wherever it stands |
| Redirect.ExecArgvIntendedIff | swish_funcs.c:103-110 | the argv as written equals the corrected one exactly when it holds no redirection operator |
| Redirect.ExecArgvKeepsEarlierOutputOperator | swish_funcs.c:103-110 | for `cat > out < in` the argv as written is `cat > out`, while the corrected argv is `cat` |
| JobControl.ResumeForeground | swish_funcs.c:140-169 | a failed first handoff changes nothing; a failed kill or wait leaves the terminal with the job and the table as it was; a terminated job is removed with later entries shifted; a stopped job leaves the table alone; success means the shell owns the terminal |
| JobControl.ResumeBackground | swish_funcs.c:170-178 | a failed kill changes nothing; otherwise only the chosen entry becomes BACKGROUND, with the length, the other entries and the terminal unchanged |
| JobControl.ResumeJob | swish_funcs.c:134-139 | an index outside the table returns -1 with the table and terminal unchanged; otherwise foreground or background resume |
| JobControl.AwaitJob | swish_funcs.c:191-214 | an out-of-range index, a STOPPED entry or a failed wait returns -1 with nothing changed; a terminated job is removed; a stop leaves the state identical; the terminal is never touched |
| JobControl.AwaitJobLeavesStoppedJobBackground | swish_funcs.c:208-213 | after wait-for reports a stop the job is still tagged BACKGROUND and the call returns 0 |
| JobControl.Survivors | swish_funcs.c:218-237 | the reference outcome of a full scan holds only STOPPED entries and never grows the table |
| JobControl.PurgeAfterScanIsSurvivors | swish_funcs.c:228-235 | flipping stopped background entries and then purging BACKGROUND entries gives the reference survivors |
| JobControl.FirstErrorAt | swish_funcs.c:220-227 | the position where the scan gives up: the first BACKGROUND entry whose wait fails, or the table length when none does |
| JobControl.AwaitAll | swish_funcs.c:218-237 | success exactly when no BACKGROUND wait fails, leaving the original entries in order minus the terminated ones, all STOPPED; a failed wait returns -1 keeping the flips before it and removing nothing |
| JobControl.AwaitAllOneStopsOneExits | swish_funcs.c:218-237 | with two background jobs of which one stops and one exits, only the stopped one remains, tagged STOPPED |
| Listing.Decimal | swish.c:97 | `%d` of a non-negative index is a non-empty string of digits with no leading zero except for 0 itself |
| Listing.ParseDecimalOfDecimal | swish.c:97 | the printed index reads back as the index |
| Listing.JobLineReadsBack | swish.c:91-97 | a printed line reads back as its index, its job's status (background exactly for BACKGROUND) and, when the name is a token (no spaces, not empty, as every name the shell records is), its job's name |
| Listing.JobsListingReadsBack | swish.c:87-101 | `jobs` prints one line per entry in table order, and line k reads back as index k and entry k's status, and as its name when that name is a token |
| Shell.Classify | swish.c:57-131 | a built-in exactly when the first token is one of the eight names, and then the command whose name it is; anything else is external |
| Shell.StripNewlineOf | swish.c:38-45 | the command is exactly the text before the first newline or NUL byte, whatever follows it |
| Shell.ChildTokens | swish.c:132-137 | a trailing `&` is dropped before the child runs and nothing else changes |
| Shell.ChildLaunch | swish.c:133-157 | the forked child's exec argv is a prefix of the line; for a background line it never includes the trailing `&`; for a foreground line free of operators it is the whole line |
| Shell.ChildPlansLine | swish.c:133-157 | a background child runs run_command on exactly the line without its `&`, so its argv is the as-written argv of that shorter line (the whole shorter line when it has no operator); a foreground child runs run_command on the whole line |
| Shell.ExternalCommand | swish.c:131-186 | a failed fork prints `error in fork!` and changes nothing; after a successful fork the shell prints nothing; a trailing `&` selects the background launch and any other line the foreground launch |
| Shell.LaunchBackground | swish.c:132-149 | a fork appends exactly one BACKGROUND entry (child pid, first token) at the tail with the terminal untouched; a failed fork adds nothing |
| Shell.LaunchForeground | swish.c:151-184 | the table grows by one STOPPED entry exactly when the wait reports a stop; a failed fork or handoff changes nothing; after a failed wait the child keeps the terminal; otherwise the shell gets it back when the reclaim succeeds |
| Shell.Report | swish.c:104-129 | a job-control built-in continues with its operation's state and prints its failure message exactly when the operation returned -1 |
| Shell.StepJobControl | swish.c:104-129 | `fg` and `bg` run resume_job in the foreground and background modes, `wait-for` runs await_background_job and `wait-all` runs await_all_background_jobs, each with its own failure message |
| Shell.BuiltinIgnoresAmpersand | swish.c:57-129 | a trailing `&` on a built-in's line leaves that step unchanged |
| Shell.LeadingNulEndsShell | swish.c:38-49 | a line starting with a NUL byte holds no token for strtok, so main returns 1 |
| Shell.Step | swish.c:37-190 | a token-less line ends with 1 and `exit` ends with 0; pwd, cd and jobs leave the state unchanged; jobs prints the listing; built-ins never add jobs; a background launch never touches the terminal |
| Shell.RunExitCode | swish.c:37-193 | main returns 1 exactly when a token-less line comes before any `exit`, otherwise 0, whatever the jobs and OS outcomes are |
| Shell.StepPreservesWf | swish.c:45-186 | if fork always returns a pid that is not yet tracked, every line keeps pids distinct and names space-free tokens |
| Shell.SleepInBackground | swish.c:132-149 | `sleep 5 &` on an empty table records one BACKGROUND job named `sleep`, prints nothing and keeps the terminal with the shell |
| Shell.SleepListed | swish.c:87-101 | `jobs` then prints `0: sleep (background)` |

## Findings

| source | as written | input that shows it | evidently intended | confidence | as-written member | corrected member |
|---|---|---|---|---|---|---|
| swish_funcs.c:103-110 | argv is cut at the first `<` if there is one, else at the first `>`, else at the first `>>`, whatever their positions | `cat > out < in` execs `cat` with arguments `>` and `out` | cut before the leftmost redirection operator, so no operator or operand reaches the program | high, not executed | Redirect.ExecArgv (shown by Redirect.ExecArgvKeepsEarlierOutputOperator) | Redirect.ArgvBeforeFirstOperator (with Redirect.ExecArgvIntendedIff) |

The rest of the model keeps the as-written argv, because `RunCommand`
describes what the source execs. The corrected argv is proved free of
operators, and `ExecArgvIntendedIff` shows the two agree exactly when the
preferred operator is also the leftmost one.

## Left out

- `fork`, `execvp`, `waitpid`, `kill`, `tcsetpgrp`, `open` and `dup2` are OS effects and process concurrency. Each is an input of a type in module `Os`; the terminal owner is a field of `State`.
- `sigaction`, `sigfillset` and `setpgid` in `main` and `run_command` are signal and process-group set-up with no effect on the table. If `run_command` returns 1 after a `sigaction` failure, the forked child would go on running the shell loop; this is not modelled.
- A failed `execvp` makes the child return 1. This is the child process's end and does not touch the parent's state.
- `pwd` and `cd` touch the filesystem and environment. They are modelled only as leaving the job state unchanged.
- `sscanf` index parsing: a non-numeric or missing argument is undefined behaviour in the source. The index is an input (`Env.index`) instead.
- Allocation failures in `strvec_add` and `job_list_add` are not modelled, and neither is the 512-byte `fgets` buffer. Every line is assumed to contain its newline.
- Prompt printing and `perror` messages are not modelled. The printed lines that are kept are the `jobs` output and the failure messages of `fg`, `bg`, `wait-for`, `wait-all` and fork.
- On a line that is only `&`, the job's name is the first token after `strvec_take` emptied the vector. Whether that string is still valid depends on `string_vector.c`, so the model uses the token `&` as written.
- Redirect.OperandsPresent: `InputFile`, `OutputFile`, `PlanCommand`, `RunCommand` and `Shell.ChildLaunch` require that every operator they act on is followed by an operand token. A line such as `cat <` or `echo hi >` makes the source read `tokens->data[length]` without a bounds check (swish_funcs.c:61, 76 and 89). What that yields depends on `string_vector.c`, so those lines are not modelled.
- Shell.Run: returns main's exit status only, not the final table, because `RunExitCode` is the property stated about the whole loop.
