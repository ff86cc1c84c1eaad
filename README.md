# FOSSology agent-side scheduler protocol, modelled in Dafny

This project models `lib/libfossscheduler.c`, the library that every
FOSSology agent (worker process) links to talk to the scheduler. The
scheduler starts an agent with `--scheduler_start` as its last argument. The
agent then answers with its version line and `OK`. After that it pulls work
one line at a time from standard input. `CLOSE` (or the end of input) ends
the job. `END`, `VERBOSE <n>` and `VERSION` are control lines that the
library consumes without showing them to the agent. Every other line is data
and is handed to the agent verbatim. The agent reports progress with a
counter that a timer prints as `HEART: <n>`, and it says `BYE` on its way
out.

Files:

- `cstd.dfy` (module `CStd`) holds the C library behaviour the file relies
  on: NUL-terminated strings in a buffer, `strncmp` against a literal,
  `atoi`, and the `"%d"` conversion of `printf`.
- `libfossscheduler.dfy` (module `FossScheduler`) holds the model itself.
  The file's globals (`items_processed`, `buffer`, `valid`, `found`,
  `verbose`) are the fields of the class `Connection`. The class also holds
  standard input as the sequence of lines still to read, standard output as
  the sequence of lines written (each without its newline), whether the
  SIGALRM handler is installed, and the process exit status. `buffer` is an
  `array<char>` of 2048 characters, cleared in connect and filled by the
  model of `fgets`. `fo_scheduler_next` recurses; here it is a `while` loop
  (`Connection.ReadCommands`) over one read-and-classify step
  (`Connection.Receive`). The loop is proved against the pure function
  `Drain`, which follows the recursion line by line. `Describes` states
  independently what one call does, and `Drain` is shown to be the only
  behaviour that fits it.
- `properties.dfy` (module `ProtocolProperties`) holds the conversations
  the protocol promises, stated on `Drain`, and the meaning of the heartbeat
  line.

Some consequences of the C code that the model keeps:

- `found` is cleared at the start of every `fo_scheduler_connect`
  (lib/libfossscheduler.c:105), so a second connect without the token clears
  it.
- `items_processed += i` has no floor (lib/libfossscheduler.c:82). A negative
  `i` lowers the count, so the count is not monotone.
- `verbose = atoi(&buffer[8])` (lib/libfossscheduler.c:194) accepts a sign,
  so the verbosity can be negative.
- `fo_scheduler_next` answers `END` with `OK` and `VERSION` with the version
  line whether or not the agent is under the scheduler. Only connect and
  disconnect check `found`. `fo_heartbeat` can only run after connect has
  installed it, which happens only when `found` is set.
- The `END` branch leaves `valid` as it was (lib/libfossscheduler.c:186-191),
  while `VERBOSE` and `VERSION` clear it (:195, :201); `Dispatch` and `Receive`
  state this. The recursive call that follows always sets it, so after `next`
  returns, `valid` is 1 exactly when a line is returned.

## Model

| member | source | states |
|---|---|---|
| `CStd.CStringPrefix` | lib/libfossscheduler.c:206 | the string a `char*` into the buffer denotes is a NUL-free prefix of the buffer, ended by the first NUL or by the end of the buffer |
| `CStd.HoldsCString` | lib/libfossscheduler.c:181 | once `fgets` has stored a NUL-free line followed by its terminator, the buffer reads back as exactly that line |
| `CStd.HoldsCStringFrom` | lib/libfossscheduler.c:194 | the string at `&buffer[j]` is the stored line from index `j` on |
| `CStd.StartsWithHeld` | lib/libfossscheduler.c:181-198 | proof step for `StartsWithCommand`: `strncmp` of the buffer against a keyword gives the same answer as testing the stored line, whatever bytes follow its NUL |
| `CStd.Decimal` | lib/libfossscheduler.c:61 | `"%d"` prints a non-empty text: an optional minus sign, then only digits |
| `CStd.Atoi` | lib/libfossscheduler.c:194 | `atoi` gives a negative value only when a minus sign follows the leading white space |
| `CStd.AtoiSkipsSpace` | lib/libfossscheduler.c:194 | `atoi` skips leading white space: a white-space character in front does not change the value |
| `CStd.AtoiUnsigned` | lib/libfossscheduler.c:194 | `atoi` of text starting with a digit is the value of its leading run of digits, whatever follows |
| `CStd.AtoiMinus` | lib/libfossscheduler.c:194 | `atoi` of text starting with a minus sign is the negated value of the digits after it |
| `CStd.AtoiDecimal` | lib/libfossscheduler.c:194 | `atoi` reads back the number that `"%d"` printed, whatever non-digit text follows |
| `FossScheduler.Classify` | lib/libfossscheduler.c:181-203 | a line is CLOSE, END, VERBOSE or VERSION exactly when it starts with that word (5, 3, 7 and 7 characters); even when the scheduler meant it as data; every other line is data |
| `FossScheduler.ReservedWordsExclusive` | lib/libfossscheduler.c:181-203 | no line starts with two keywords, so the order of the tests never changes how a line is classified |
| `FossScheduler.VerboseArgOf` | lib/libfossscheduler.c:194 | `VERBOSE <n>` sets the verbosity to `n` for every integer `n`, whatever non-digit text follows; `VERBOSE` with no argument sets it to 0 |
| `FossScheduler.Reply` | lib/libfossscheduler.c:186-203 | a line gets at most one reply: `OK` exactly for END (:188), the version line exactly for VERSION (:200), and nothing for CLOSE, VERBOSE and data |
| `FossScheduler.HeartLine` | lib/libfossscheduler.c:61 | the heartbeat is a single line (no newline or NUL inside) that starts with `HEART: ` |
| `FossScheduler.VerboseLineLong` | lib/libfossscheduler.c:194 | a VERBOSE line that ends with its newline reaches index 8, so `&buffer[8]` lies inside the line or at its terminating NUL |
| `FossScheduler.Drain` | lib/libfossscheduler.c:176-207 | one call of `fo_scheduler_next` reads at least one line when input is pending, and never more lines than are pending |
| `FossScheduler.DrainDescribes` | lib/libfossscheduler.c:176-207 | `Drain` satisfies `Describes`, the non-recursive description of one call: it reads exactly up to and including the first CLOSE or data line, or all of the input. It returns that line when it is data and nothing otherwise. It writes one reply per END or VERSION line read, in order. The verbosity it leaves is that of the last VERBOSE line read |
| `FossScheduler.DrainReturnsLast` | lib/libfossscheduler.c:205-206 | proof step for `Next`: a returned line is the last line the call read, and it is a data line |
| `FossScheduler.DrainStep` | lib/libfossscheduler.c:186-203 | proof step for the loop in `ReadCommands`, one level of the recursion: a CLOSE or data line ends the call; an END, VERBOSE or VERSION line adds its reply and its verbosity, and the call goes on with the next line |
| `FossScheduler.VerboseFromBuffer` | lib/libfossscheduler.c:194 | `atoi(&buffer[8])` on a buffer that holds a VERBOSE line is the argument of that line |
| `FossScheduler.StartsWithCommand` | lib/libfossscheduler.c:181-198 | classifying the buffer classifies the line `fgets` stored in it |
| `FossScheduler.Connection.constructor` | lib/libfossscheduler.c:37-49 | at process start every global is zero, the buffer is all NUL, nothing is written and no handler is installed |
| `FossScheduler.Connection.Heart` | lib/libfossscheduler.c:80-83 | `items_processed` grows by exactly `i` (it shrinks when `i` is negative) and nothing else changes |
| `FossScheduler.Connection.Heartbeat` | lib/libfossscheduler.c:59-64 | only once it is installed, the handler writes one line, `HEART: ` followed by the current count |
| `FossScheduler.Connection.Connect` | lib/libfossscheduler.c:103-135 | with `--scheduler_start` last: `argc` drops by one, that slot of `argv` becomes NULL, `found` is set, the version line and then `OK` are written, and the heartbeat is installed. Without it: `argc`, `argv` and output are unchanged and `found` is clear. Either way the count, `valid` and `verbose` are 0 and the buffer is all NUL |
| `FossScheduler.Connection.Disconnect` | lib/libfossscheduler.c:144-155 | writes `BYE` exactly when `found` is set, nothing otherwise, and the process then ends with status 0 |
| `FossScheduler.Connection.ReadLine` | lib/libfossscheduler.c:181 | `fgets` fails at end of input (a read error counts as end of input) and then leaves the buffer alone; otherwise it consumes one line and the buffer holds it |
| `FossScheduler.Connection.Receive` | lib/libfossscheduler.c:178-203 | one activation of `fo_scheduler_next`: at end of input it returns NULL with `valid` clear and changes nothing else. Otherwise it consumes one line, writes that line's reply, applies its verbosity, and either recurses (END, VERBOSE, VERSION) or returns the line when it is data and NULL when it is CLOSE, with `valid` telling which. When it recurses it returns nothing, keeps `valid` after END and clears it after VERBOSE or VERSION |
| `FossScheduler.Connection.Dispatch` | lib/libfossscheduler.c:181-206 | the keyword tests on the stored line and the action each branch takes: which reply it writes, the verbosity it sets, whether it recurses, and `valid` (cleared for CLOSE, VERBOSE and VERSION, kept for END, set for data) |
| `FossScheduler.Connection.ReadCommands` | lib/libfossscheduler.c:186-203 | repeating the activations until one does not recurse does what `Drain` says, line for line and reply for reply |
| `FossScheduler.Connection.Activate` | lib/libfossscheduler.c:176-207 | one turn of that loop: after one activation, what is left of the call is still what `Drain` says, or the call has ended as `Drain` says |
| `FossScheduler.Connection.Next` | lib/libfossscheduler.c:176-207 | `fo_scheduler_next` returns `Drain`'s line, consumes `Drain`'s lines, writes `Drain`'s replies and leaves `Drain`'s verbosity. Afterwards `valid` is set exactly when a line is returned, and `fo_scheduler_current` returns that same line |
| `FossScheduler.Connection.Current` | lib/libfossscheduler.c:217-220 | returns the buffer exactly when `valid` is set, and what it returns is then a data line |
| `ProtocolProperties.DrainUnique` | lib/libfossscheduler.c:176-207 | any behaviour that satisfies `Describes` is `Drain`'s, so the description determines the call completely |
| `ProtocolProperties.ReturnsFirstData` | lib/libfossscheduler.c:181-206 | `next` returns a line exactly when a data line comes before any CLOSE and before the end of input. The line it returns is that first data line |
| `ProtocolProperties.DataLineReturned` | lib/libfossscheduler.c:205-206 | a data line is returned verbatim after reading that one line, with nothing written and the verbosity unchanged |
| `ProtocolProperties.CloseEndsJob` | lib/libfossscheduler.c:181-185 | a CLOSE line makes `next` return NULL after reading only that line, with nothing written |
| `ProtocolProperties.EndThenData` | lib/libfossscheduler.c:186-191 | `END` then a data line: exactly one `OK` is written, then the data line is returned |
| `ProtocolProperties.VerboseThenData` | lib/libfossscheduler.c:192-197 | `VERBOSE n` then a data line: the verbosity becomes `n`, nothing is written, and the data line is returned |
| `ProtocolProperties.VersionThenData` | lib/libfossscheduler.c:198-203 | `VERSION` then a data line: the version line is written and the data line is still returned |
| `ProtocolProperties.RepliesVocabulary` | lib/libfossscheduler.c:186-203 | while looking for work the agent writes only `OK` and the version line, never `BYE` or a heartbeat |
| `ProtocolProperties.HeartLineCarriesCount` | lib/libfossscheduler.c:61 | the heartbeat line is `HEART: ` followed by text that `atoi` reads back as the processed-items count |

## Left out

- The timer. `signal(SIGALRM, fo_heartbeat)` and `alarm(ALARM_SECS)`
  (lib/libfossscheduler.c:63, 132-133) deliver the heartbeat asynchronously.
  The model keeps only whether the handler is installed (`armed`) and the
  line the handler writes. When it fires and how it interleaves with a
  blocked read are not modelled. `ALARM_SECS` comes from
  `libfossscheduler.h`, which is not part of this model.
- FossScheduler.Connection.Heartbeat: does not model re-arming the alarm, which has no effect on the data the model tracks.
- `fflush(stdout)` has no effect here, because standard output is modelled
  as the sequence of lines written so far.
- `exit(0)` in disconnect sets the exit status to 0. Every method
  requires that the process has not exited yet. `Current`, a function that
  changes nothing, does not require it.
- Lines longer than the buffer. `fgets` would split them into pieces. The
  model requires each pending input line to end with its newline, to fit in
  2048 bytes with its NUL, and to hold no NUL. Each `char` of a line stands
  for one byte of `buffer` and is below 256.
- The returned pointer. `fo_scheduler_next` and `fo_scheduler_current` return
  `buffer` itself (lib/libfossscheduler.c:206, 219), not a copy. The model
  returns the line as a value. So it does not capture that the next call of
  `fo_scheduler_next` overwrites the string the agent holds. Nor does it capture
  that an agent writing through the pointer changes what `current` returns.
- C `int` overflow of `items_processed` and of `atoi`. Integers are
  unbounded.
- Stale bytes at `buffer[8]` when a `VERBOSE` line has no newline. A
  well-formed VERBOSE line always reaches index 8 (`VerboseLineLong`), and
  `VerboseArg` returns 0 for the impossible shorter case.
- The value of `SVN_REV` is set at build time. The model uses the file's
  fallback, `"SVN_REV Unknown"` (lib/libfossscheduler.c:29-31).
- The NFS-mount check is an empty TODO in the source
  (lib/libfossscheduler.c:128-129).
- FossScheduler.Connection.Connect: requires `argc > 0` and a non-NULL `argv[argc-1]`, since the C code reads that element unconditionally and passes it to `strcmp`.
- FossScheduler.Connection.ReadLine: a read error is modelled as the end of input. `fgets` can also return NULL on an error while lines are still pending, and the buffer is then indeterminate; the model does not cover that case. Blocking input is outside the model as well: standard input is a finite sequence of lines, so every read returns. In C the read waits while the scheduler sends nothing, which is how the scheduler pauses an agent.
- FossScheduler.Connection.Next: does not state that the buffer is untouched when input has already ended; `ReadLine` and `Receive` state it for a single read. As for `ReadLine`, a read error counts as the end of input (a NULL from a read error while lines are pending is not modelled). Input that blocks or never ends is outside the model, so every call returns. An endless run of END, VERBOSE or VERSION lines, on which the recursion at lib/libfossscheduler.c:190, 196 and 202 would not end, cannot occur.
- A whole standalone session (connect without the token, then heart and
  disconnect) is not one lemma. It follows from the contracts of `Connect`
  (nothing written, handler not installed), `Heart` (output unchanged) and
  `Disconnect` (nothing written when `found` is clear).
