# ping-exp, modelled in Dafny

ping-exp measures how a network treats traffic of different IP
type-of-service (QoS) classes. It runs the system `ping` tool once per
experiment, each in its own worker process, with the TOS byte set by `-Q`.
It reads the responses, the packet summary and the rtt summary out of the
tool's output, and collects every worker's result in the parent process
through a queue. There are two variants of the program:

- `ping-exp.py` probes a list of targets given as `-t ID,HOST,TOS`;
- `ping-test.py`, the older one, probes one host (`-h`) under three fixed
  classes: Default (0), High priority (16) and Low priority (8).

`test.py` pins down `find_lost_sequence_numbers`: the icmp_seq numbers
from 1 to the transmitted count that no response carries.

The model, one module per concern:

- `Wrappers` (`wrappers.dfy`): `Option` and `Result`.
- `Text` (`text.dfy`): decimal digits, `int()` and `'%i'`, `'%.3f'` of a
  millisecond count, `strip`/`rstrip`, `split(',')`, and `'%02x'`.
- `Patterns` (`patterns.dfy`): the three regular expressions of `ping()`
  as deterministic matchers at a position, plus the leftmost search that
  `re.search` performs. It proves that a matcher accepts exactly the texts
  the pattern spells.
- `PingOutput` (`ping_output.dfy`): the result record, the argument vector
  given to the tool, and the line-by-line parse of its output that both
  programs share. The parse is an imperative loop proved against a fold.
- `Fanin` (`fanin.dfy`): the parent's receive loop over the queue. It is
  proved for any arrival order of the posted messages.
- `PingExp` (`ping_exp.dfy`): `ping`, `do_ping` and `experiment` of
  `ping-exp.py`, its option loop (the `-t` split and strip), and its mode
  checks.
- `Palette` (`colors.dfy`): the `Colors` class, whose colour list only grows.
- `PingTest` (`ping_test.dfy`): `ping`, `do_ping`, `experiment`, the option
  loop and the mode checks of `ping-test.py`.
- `Lost` (`lost.dfy`): `find_lost_sequence_numbers` and the seven cases of
  `test.py`.

The ping tool is a parameter, `exec: seq<string> -> ProbeRun`. For each
argument vector it says whether the launch failed, and otherwise which
lines the tool printed and its exit status. Parsing, status handling and
collection are therefore modelled for every possible behaviour of the tool.

On exit status 1, `ping-exp.py:104-106` keeps the parsed responses and
summary and only sets the rtt summary to zeros; `PingExp.Ping` does the
same.

## Model

| member | source | states |
|---|---|---|
| Text.RStrip | ping-exp.py:69 | the result is a prefix of the line, ends in a non-space, and only whitespace was removed |
| Text.LStrip | ping-exp.py:293 | the result is a suffix of the text, starts with a non-space, and only whitespace was removed |
| Text.StripSpec | ping-exp.py:293 | strip() gives a stripped slice of the text with only whitespace cut on either side |
| Text.StripIdempotent | ping-exp.py:293-294 | stripping twice, or rstrip after strip, changes nothing |
| Text.StrippedIsFixed | ping-exp.py:293-294 | a text with no outer whitespace is left alone by strip, lstrip and rstrip |
| Text.JoinSplit | ping-exp.py:286 | joining the fields of a.split(',') with ',' gives a back |
| Text.SplitJoin | ping-exp.py:286 | splitting fields free of ',' after joining them gives the fields back |
| Text.ParseIntToString | ping-exp.py:54 | int() reads back every integer that '%i' writes |
| Text.NatToString | ping-exp.py:55 | '%i' of a count is a non-empty digit string without a leading zero and with that value |
| Text.FormatMillis | ping-exp.py:53 | '%.3f' of a millisecond count has exactly three decimals, no leading zero in the whole part, and the same value |
| Text.Hex2 | ping-exp.py:26 | '%02x' of a byte is two lower-case hex digits with that value |
| Patterns.MatchNumeral | ping-exp.py:47 | a \d+(\.\d+|) match is a well-formed numeral followed by the rest of the text |
| Patterns.NumeralComplete | ping-exp.py:47 | a numeral followed by a delimiter is matched whole, with nothing taken from the delimiter |
| Patterns.MatchComplete | ping-exp.py:47-49 | a pattern whose numbers are all delimited matches every text it spells, with the same captures |
| Patterns.MatchSound | ping-exp.py:47-49 | whatever a pattern matches is a text it spells, followed by the unread rest |
| Patterns.MatchAppend | ping-exp.py:48 | matching a concatenation of patterns is matching one after the other |
| Patterns.SearchNone | ping-exp.py:73 | re.search finds nothing exactly when no position of the line matches |
| Patterns.SearchLeftmost | ping-exp.py:73 | re.search returns the match at the leftmost matching position |
| Patterns.SearchSome | ping-exp.py:73 | a search result is the match at some position with no match before it |
| Patterns.ResponseMatch | ping-exp.py:47 | the response pattern matches a text with these groups iff the text starts with their spelling |
| Patterns.SummaryMatch | ping-exp.py:48 | the summary pattern, with or without the '+N errors, ' part, matches iff the text starts with the groups' spelling |
| Patterns.SummaryAlternativesExclusive | ping-exp.py:48 | no text matches both alternatives of the errors group |
| Patterns.RttMatch | ping-exp.py:49 | the rtt pattern matches a text with these groups iff the text starts with their spelling |
| PingOutput.ProbeArgs | ping-exp.py:52-58 | the argument vector is 'ping', -i, -Q, -c, then -f when flooding, and ends with the host |
| PingOutput.ProbeArgsRoundTrip | ping-exp.py:52-58 | the host, qos, interval, count and flood flag can all be read back from the argument vector |
| PingOutput.ReadSecondsText | ping-exp.py:53 | the '-i %.3f' text of any millisecond interval, negative ones included, reads back as that interval |
| PingOutput.ParseOutput | ping-exp.py:68-91 | the line loop builds exactly the record that the fold over the lines defines |
| PingOutput.ResponsesInLineOrder | ping-exp.py:72-75 | the responses are one triple per matching line, in line order |
| PingOutput.SummaryAbsent | ping-exp.py:77-83 | there is no summary iff no line matches the summary pattern |
| PingOutput.SummaryFromLastLine | ping-exp.py:77-83 | the summary is the one from the last matching line |
| PingOutput.RttAbsent | ping-exp.py:85-91 | there is no rtt summary iff no line matches the rtt pattern |
| PingOutput.RttFromLastLine | ping-exp.py:85-91 | the rtt summary is the one from the last matching line |
| PingOutput.UnmatchedLineIgnored | ping-exp.py:68-91 | a line that matches none of the patterns can be removed without changing the result |
| PingOutput.ResponseLineParsed | ping-exp.py:73-75 | a line holding icmp_seq, ttl and time after a prefix where no match starts, followed by anything, yields exactly that response |
| PingOutput.SummaryLineParsed | ping-exp.py:78-83 | a line holding a summary after a prefix where no match starts yields exactly its transmitted, received, loss and time |
| PingOutput.SummaryErrorsDiscarded | ping-exp.py:48 | the '+N errors' count does not change the parsed summary |
| PingOutput.RttLineParsed | ping-exp.py:86-91 | a line holding an rtt summary after a prefix where no match starts yields exactly its min, avg, max and mdev |
| Fanin.FirstFailure | ping-exp.py:218-224 | the first failed message, with every earlier one successful; none iff all succeeded |
| Fanin.Collect | ping-exp.py:218-227 | the receive loop ends as the specification function of the inbox says |
| Fanin.FiledKeys | ping-exp.py:227 | the results are filed under exactly the ids received |
| Fanin.FiledLastWins | ping-exp.py:227 | an id's last message decides what is filed under it |
| Fanin.FiledFromMessage | ping-exp.py:227 | every filed result came in a message under its id |
| Fanin.CollectedAllSucceed | ping-exp.py:218-227 | when exactly as many messages are posted as the loop receives and all are successful, any arrival order completes, with exactly their ids and results |
| Fanin.CollectedSomeFail | ping-exp.py:221-224 | when no more messages are posted than the loop receives and one of them failed, any arrival order stops at a failed experiment, even when messages are missing |
| Fanin.CollectedTooFew | ping-exp.py:218-219 | when fewer messages are posted than the loop receives and none of them failed, any arrival order leaves the loop waiting forever |
| PingExp.Ping | ping-exp.py:41-108 | int(qos) failing raises; a failed launch or status >= 2 gives None; status 1 keeps the parse with zero rtt; otherwise the parse |
| PingExp.BuildConfigs | ping-exp.py:203-205 | one experiment per target, with its id, host, qos, and the global interval and count |
| PingExp.DoPing | ping-exp.py:110-118 | a worker posts one message, tagged with host and qos, iff ping returned a result; otherwise it posts nothing |
| PingExp.DoPingFixed | ping-exp.py:110-118 | the corrected worker also posts (id, None) for a failed probe and agrees with do_ping otherwise |
| PingExp.RunExperiment | ping-exp.py:197-236 | the experiment's outcome as the specification function of the arrivals says |
| PingExp.PostedAllSucceed | ping-exp.py:110-118 | when every probe succeeds, one successful message per worker is posted, with the workers' ids |
| PingExp.PostedAsWritten | ping-exp.py:110-118 | every posted message is successful, and a failed probe means fewer messages than workers |
| PingExp.PostedFixed | ping-exp.py:110-118 | the corrected workers post at most one message each, exactly one each when no int(qos) raises, and a probe that returned None shows up as a failed message even when other workers raised |
| PingExp.PostedFromWorkers | ping-exp.py:118 | every posted message carries its worker's id and result |
| PingExp.WorkersOfTargets | ping-exp.py:203-210 | one worker per target, probing that target's host and qos |
| PingExp.ExperimentCompletes | ping-exp.py:197-236 | for as many workers as targets, when every probe succeeds, any arrival order completes, keyed by exactly the workers' ids, each entry holding the result, host and qos of a worker with that id, together with the count and interval |
| PingExp.TargetsExperimentCompletes | ping-exp.py:197-236 | when every target's probe succeeds, any arrival order completes with the target ids as keys, each holding the result, host and qos of a target with that id |
| PingExp.FailedProbeBlocks | ping-exp.py:110-118 | as written, with as many workers as targets, one failed probe makes the parent wait forever, whatever the arrival order |
| PingExp.AbortUnreachable | ping-exp.py:221-224 | as written, the 'No results' exit can never happen |
| PingExp.FixedExperimentAborts | ping-exp.py:221-224 | with the corrected worker and as many workers as targets, a probe that returned None ends the run at a worker whose probe returned None, whatever the arrival order and even when other workers died of int(qos)'s ValueError |
| PingExp.ReadOptions | ping-exp.py:274-300 | the option loop gives the settings, or the stop, that folding the options over the defaults gives |
| PingExp.OptionsStep | ping-exp.py:274-300 | each option is applied to the settings left by the ones before it |
| PingExp.OptionsStopped | ping-exp.py:286-290 | once an option stops the program, later options make no difference |
| PingExp.ApplyOptionAccepted | ping-exp.py:281-290 | an option is accepted iff its count, interval or target argument can be read |
| PingExp.OptionsAccepted | ping-exp.py:274-300 | the loop finishes iff every option is accepted |
| PingExp.AppendTargetAdds | ping-exp.py:285-294 | a -t appends its stripped fields and leaves the earlier targets unchanged |
| PingExp.RestripAppend | ping-exp.py:292-294 | re-stripping every target after an append changes only the new one |
| PingExp.ApplyOptionTargets | ping-exp.py:285-294 | -t appends exactly its stripped fields, and no other option touches the targets |
| PingExp.OptionsTargets | ping-exp.py:285-294 | the targets are the -t arguments in order, each split into three fields and stripped |
| PingExp.TargetRoundTrip | ping-exp.py:285-294 | a target with stripped, comma-free fields survives being written as ID,HOST,TOS and read back |
| PingExp.ApplyOptionFlags | ping-exp.py:275-280 | -w sets the write flag and -r the read flag; nothing clears them |
| PingExp.OptionsFlags | ping-exp.py:275-280 | the write and read flags are set iff some -w or -r was given |
| PingExp.CheckModes | ping-exp.py:302-318 | accepted iff not both -r and -w, and exactly one of -r and -t; the results come from the file iff -r |
| Palette.Components | ping-exp.py:26 | the three components of a colour text are bytes |
| Palette.ColorRoundTrip | ping-exp.py:26 | '#%02x%02x%02x' of three bytes is a colour text that reads back as the same bytes |
| Palette.PaletteColors | ping-exp.py:19-27 | the list holds at least the six seeds and only '#rrggbb' colours |
| Palette.PaletteGrows | ping-exp.py:23-27 | appending drawn colours keeps a palette and every old entry |
| Palette.PyIndex | ping-exp.py:32 | Python indexing succeeds iff -len <= index < len, giving s[index], or s[len + index] for a negative index |
| Palette.PyPrefix | ping-exp.py:39 | Python's [:size] is a prefix of the list: the whole list from size >= len, size entries below that, len + size (at least 0) for a negative size |
| Palette.Colors.constructor | ping-exp.py:19-21 | the list starts as the six seed colours |
| Palette.Colors.ExpandList | ping-exp.py:23-27 | the list grows to max(num, its length) and keeps its entries; new colours have components 0 to 254 |
| Palette.Colors.Get | ping-exp.py:29-32 | the list ends with exactly max(index + 1, old length) entries, the old ones kept, so a negative index leaves it unchanged; the result is Python's indexing |
| Palette.Colors.List | ping-exp.py:34-39 | the list ends with exactly max(size, old length) entries, the old ones kept; the result is its first size colours |
| PingTest.Ping | ping-test.py:19-80 | a failed launch or any non-zero status gives None; status 0 gives the parse |
| PingTest.ProbeVersions | ping-test.py:72-80 | the two ping() versions agree except for status 1 (and signals): there the older one gives None |
| PingTest.BuildConfigs | ping-test.py:164-167 | exactly the three classes Default/0, High priority/16, Low priority/8 on the one host |
| PingTest.DoPing | ping-test.py:82-86 | a worker always posts exactly one message: its id and what ping returned, None included |
| PingTest.PostedOnePerWorker | ping-test.py:82-86 | one message per worker, in worker order, with its id and result |
| PingTest.WorkersOfClasses | ping-test.py:164-172 | three workers probing the host with qos 0, 16 and 8 |
| PingTest.RunExperiment | ping-test.py:158-199 | the experiment's outcome as the specification function of the arrivals says |
| PingTest.ExperimentCompletes | ping-test.py:158-199 | for three workers under the ids Default, High priority and Low priority, when all three probes succeed, any arrival order completes, with the three class names as keys and the host, count and interval |
| PingTest.ClassesExperimentCompletes | ping-test.py:158-199 | when every class's probe succeeds, any arrival order completes with keys Default, High priority and Low priority, each holding what ping() gave for qos 0, 16 and 8 |
| PingTest.ExperimentAborts | ping-test.py:180-186 | for three workers, a probe that returned None ends the run at a class whose probe returned None, whatever the arrival order |
| PingTest.ReadOptions | ping-test.py:230-248 | the option loop gives the settings, or the stop, that folding the options over the defaults gives |
| PingTest.OptionsStep | ping-test.py:230-248 | each option is applied to the settings left by the ones before it |
| PingTest.OptionsStopped | ping-test.py:237-240 | once an option stops the program, later options make no difference |
| PingTest.ApplyOptionHost | ping-test.py:241-242 | -h sets the host; no other option touches it |
| PingTest.OptionsHost | ping-test.py:241-242 | there is no host iff no -h was given; otherwise the host is the last -h argument |
| PingTest.CheckModes | ping-test.py:250-266 | accepted iff not both -r and -w, and exactly one of -r and a non-empty -h; the results come from the file iff -r |
| Lost.MissingSpec | test.py:14-88 | a number is reported iff it lies in the range and is not seen; the report ascends |
| Lost.LostSpec | test.py:14-88 | the lost numbers ascend, lie within 1..transmitted, and are exactly the ones no response carries |
| Lost.MissingCount | test.py:14-88 | every number in the range is either reported or seen, never both |
| Lost.SeenDistinct | test.py:14-88 | responses with distinct sequence numbers see as many numbers as there are responses |
| Lost.LostCount | test.py:14-88 | with distinct in-range sequence numbers, lost numbers plus responses equal transmitted |
| Lost.LostFromMembers | test.py:14-88 | the ascending list of exactly the unseen numbers is the result |
| Lost.Test1 | test.py:14-22 | all four replies received: nothing lost |
| Lost.Test2 | test.py:25-33 | replies 2 and 3 of 3: [1] lost |
| Lost.Test3 | test.py:36-44 | replies 4 to 6 of 6: [1, 2, 3] lost |
| Lost.Test4 | test.py:47-55 | replies 1, 2 and 4 of 4: [3] lost |
| Lost.Test5 | test.py:58-66 | replies 1 to 3 of 4: [4] lost |
| Lost.Test6 | test.py:69-77 | replies 1 to 3 of 6: [4, 5, 6] lost |
| Lost.Test7 | test.py:80-88 | replies 2, 3, 5, 6, 8, 9 of 12: [1, 4, 7, 10, 11, 12] lost |

## Left out

- Processes and the queue: workers run concurrently and the queue is a
  channel between processes. The model sees only the set of messages
  posted, as a multiset, and every order in which they can arrive. Timing
  and interleaving are not modelled.
- Running the ping tool (Popen, its stderr, waiting for it) is the
  parameter `exec`. That parameter is a function, so the same argument
  vector always behaves the same way. A tool that behaves differently from
  one run to the next is not modelled.
- Floating point: `time=` values and the rtt fields are exact decimals
  (`Decimal`), not Python floats. The interval is an integer number of
  milliseconds. `float(a)` of `-i` together with the conversion to
  milliseconds is the parameter `readInterval`, and `'%.3f'` is exact on
  such values.
- `Decimal` values are not normalised: `"0.50"` and `"0.5"` become
  `Decimal(50, 2)` and `Decimal(5, 1)`, two different values, whereas
  Python's `float()` gives the same number for both.
- `int()`: `ParseInt` ignores surrounding whitespace and reads an optional
  sign and decimal digits. Python 2's `int()` also skips whitespace between
  the sign and the digits, so `"- 5"` reads as -5; `ParseInt` rejects such
  a text.
- `random.randrange(0, 255, 1)`: the choice of each colour is left
  arbitrary, within components 0 to 254.
- The time stamps (`time.time()`) are not modelled. Neither are the
  progress and error messages printed to the terminal, or the stderr dump.
- `graph()`, `usage()`, pickling results to a file or reading them back,
  and the dispatch after the mode checks are not modelled: they do I/O or
  plotting only.
- getopt itself is not modelled: the option loop starts from the list of
  parsed options. The unknown-option exit happens before the loop. The
  loop's `assert(False)` branch cannot be reached, because every option
  getopt returns has a branch.
- `pingexp.py`, the module `test.py` imports, is not part of this model.
  `Lost.FindLostSequenceNumbers` is defined from the seven cases of
  `test.py`. A result with no summary is taken to give `None`; `test.py`
  does not show that case.
- The summaries in `test.py` hold only `transmitted` and
  `received`. The scenarios set `packet_loss` and `time` to zero, and the
  result does not depend on them.
- A negative exit status (the tool killed by a
  signal) is kept as the parse by `ping-exp.py` and gives `None` in
  `ping-test.py`.

## Findings

| source | as written | input that shows it | evidently intended | confidence | as-written member | corrected member |
|---|---|---|---|---|---|---|
| ping-exp.py:110-118 | `do_ping` stores `host` and `qos` into the result of `ping()` before posting it. When `ping()` returns `None`, that store raises, so the worker dies without posting. The parent then waits forever on `results_q.get()`, and the "No results" exit at ping-exp.py:221-224 is dead code. | a target whose host the tool cannot resolve (exit status 2): `ping()` returns `None` | the worker posts `(experiment_id, None)`, and the parent stops with "No results for ID" | high; not executed | PingExp.FailedProbeBlocks | PingExp.FixedExperimentAborts |
