/** The agent side of the FOSSology scheduler protocol (lib/libfossscheduler.c).
    The process-wide globals of the C file are the fields of one `Connection`;
    standard input is the sequence of lines from the scheduler not read yet,
    standard output the sequence of lines written so far (each without its
    newline). */
module FossScheduler {
  import opened CStd

  /** Capacity of `buffer`, the terminating NUL included. */
  const BUFFER_SIZE: nat := 2048
  /** The last argument of an agent started by the scheduler. */
  const SCHEDULER_START: string := "--scheduler_start"
  /** The version line, the default value of the SVN_REV macro. */
  const SVN_REV: string := "SVN_REV Unknown"

  /** A line the scheduler sends, as fgets stores it whole: it ends with its
      newline, fits the buffer with its NUL, and holds no other newline and no
      NUL. Each character is one byte of `buffer`. */
  predicate WellFormedLine(l: string)
  {
    && 0 < |l| < BUFFER_SIZE && l[|l| - 1] == '\n' && '\n' !in l[..|l| - 1] && NUL !in l
    && forall i :: 0 <= i < |l| ==> l[i] as int < 256
  }

  predicate AllWellFormed(ls: seq<string>)
  {
    forall i :: 0 <= i < |ls| ==> WellFormedLine(ls[i])
  }

  /** How fo_scheduler_next treats a line it has read. */
  datatype Command = Close | End | Verbose | Version | Data

  /** The prefix tests of fo_scheduler_next, in the order it makes them. No
      reserved word is a prefix of another, so each command is recognised by
      its own prefix alone and the order of the tests never matters. */
  function Classify(s: seq<char>): (c: Command)
    ensures (c == Close) == StartsWith(s, "CLOSE")
    ensures (c == End) == StartsWith(s, "END")
    ensures (c == Verbose) == StartsWith(s, "VERBOSE")
    ensures (c == Version) == StartsWith(s, "VERSION")
  {
    ReservedWordsExclusive(s);
    if StartsWith(s, "CLOSE") then Close
    else if StartsWith(s, "END") then End
    else if StartsWith(s, "VERBOSE") then Verbose
    else if StartsWith(s, "VERSION") then Version
    else Data
  }

  lemma PrefixAt(s: seq<char>, lit: string, i: nat)
    requires StartsWith(s, lit) && i < |lit|
    ensures s[i] == lit[i]
  {
    assert s[..|lit|][i] == s[i];
  }

  /** A sequence starts with at most one of the four reserved words. */
  lemma ReservedWordsExclusive(s: seq<char>)
    ensures StartsWith(s, "CLOSE") ==> !StartsWith(s, "END") && !StartsWith(s, "VERBOSE") && !StartsWith(s, "VERSION")
    ensures StartsWith(s, "END") ==> !StartsWith(s, "VERBOSE") && !StartsWith(s, "VERSION")
    ensures StartsWith(s, "VERBOSE") ==> !StartsWith(s, "VERSION")
  {
    if StartsWith(s, "CLOSE") {
      PrefixAt(s, "CLOSE", 0);
    }
    if StartsWith(s, "END") {
      PrefixAt(s, "END", 0);
    }
    if StartsWith(s, "VERBOSE") {
      PrefixAt(s, "VERBOSE", 3);
    }
  }

  /** A line that ends a call of fo_scheduler_next; the other three commands
      are consumed and the next line is read. */
  predicate Stops(l: string)
  {
    Classify(l) == Close || Classify(l) == Data
  }

  /** A VERBOSE line is longer than its keyword, since it ends with a newline. */
  lemma VerboseLineLong(l: string)
    requires WellFormedLine(l) && Classify(l) == Verbose
    ensures |l| >= 8
  {
    assert l[..7] == "VERBOSE";
  }

  /** The verbosity a VERBOSE line sets: atoi of its text from index 8. A
      well-formed VERBOSE line always reaches index 8 (VerboseLineLong); the
      shorter case only keeps the function total. */
  function VerboseArg(l: string): int
  {
    if 8 <= |l| then Atoi(l[8..]) else 0
  }

  /** `VERBOSE <n>` sets the verbosity to n, whatever follows the number;
      `VERBOSE` with nothing after it sets it to 0. */
  lemma VerboseArgOf(n: int, rest: string)
    requires rest == [] || !IsDigit(rest[0])
    ensures VerboseArg("VERBOSE " + Decimal(n) + rest) == n
    ensures VerboseArg("VERBOSE\n") == 0
  {
    var l := "VERBOSE " + Decimal(n) + rest;
    assert l[8..] == Decimal(n) + rest;
    AtoiDecimal(n, rest);
    assert "VERBOSE\n"[8..] == [];
  }

  /** The verbosity after reading line `l` with verbosity `v`. */
  function VerboseStep(l: string, v: int): int
  {
    if Classify(l) == Verbose then VerboseArg(l) else v
  }

  /** The line the agent writes back for a line it reads. */
  function Reply(l: string): (r: seq<string>)
    ensures |r| <= 1
    ensures r == ["OK"] <==> Classify(l) == End
    ensures r == [SVN_REV] <==> Classify(l) == Version
    ensures r == [] <==> Stops(l) || Classify(l) == Verbose
  {
    match Classify(l)
    case End => ["OK"]
    case Version => [SVN_REV]
    case _ => []
  }

  /** All replies to a run of lines, in order. */
  function Replies(ls: seq<string>): seq<string>
  {
    if ls == [] then [] else Reply(ls[0]) + Replies(ls[1..])
  }

  /** The verbosity after a run of lines, starting from `v`: that of the last
      VERBOSE line among them, `v` when there is none. */
  function VerboseAfter(ls: seq<string>, v: int): int
  {
    if ls == [] then v else VerboseAfter(ls[1..], VerboseStep(ls[0], v))
  }

  /** What one call of fo_scheduler_next does: the line it returns (None for
      NULL), how many input lines it reads, what it writes, the verbosity it
      leaves. */
  datatype Drained = Drained(line: Option<string>, consumed: nat, replies: seq<string>, verbose: int)

  /** `d` is what a call of fo_scheduler_next does on `input` from verbosity
      `v`: it reads lines up to and including the first that is CLOSE or data,
      or up to the end of the input; it returns that line when it is data and
      nothing otherwise; it writes exactly the replies of the lines it read;
      and the last VERBOSE among them sets the verbosity. */
  ghost predicate Describes(input: seq<string>, v: int, d: Drained)
  {
    && d.consumed <= |input|
    && (input != [] ==> d.consumed > 0)
    && (forall i :: 0 <= i < d.consumed - 1 ==> !Stops(input[i]))
    && (d.consumed == |input| || Stops(input[d.consumed - 1]))
    && d.line == (if d.consumed > 0 && Classify(input[d.consumed - 1]) == Data then Some(input[d.consumed - 1]) else None)
    && d.replies == Replies(input[..d.consumed])
    && d.verbose == VerboseAfter(input[..d.consumed], v)
  }

  lemma DescribesStop(input: seq<string>, v: int)
    requires input != [] && Stops(input[0])
    ensures Describes(input, v, Drained(if Classify(input[0]) == Data then Some(input[0]) else None, 1, [], v))
  {
    assert input[..1] == [input[0]];
    assert input[..1][1..] == [];
  }

  lemma DescribesControl(input: seq<string>, v: int, d: Drained)
    requires input != [] && !Stops(input[0])
    requires Describes(input[1..], VerboseStep(input[0], v), d)
    ensures Describes(input, v, Drained(d.line, d.consumed + 1, Reply(input[0]) + d.replies, d.verbose))
  {
    var p := input[..d.consumed + 1];
    assert p[0] == input[0] && p[1..] == input[1..][..d.consumed];
    assert forall i :: 1 <= i < d.consumed + 1 ==> input[i] == input[1..][i - 1];
  }

  /** The recursion of fo_scheduler_next over the pending input: CLOSE and
      data lines end it, END, VERBOSE and VERSION lines are consumed and it
      goes on with the rest. */
  function Drain(input: seq<string>, verbose: int): (d: Drained)
    ensures d.consumed <= |input| && (input != [] ==> d.consumed > 0)
  {
    if input == [] then Drained(None, 0, [], verbose)
    else
      var l := input[0];
      if Stops(l) then
        Drained(if Classify(l) == Data then Some(l) else None, 1, [], verbose)
      else
        var d := Drain(input[1..], VerboseStep(l, verbose));
        Drained(d.line, d.consumed + 1, Reply(l) + d.replies, d.verbose)
  }

  /** Drain does what fo_scheduler_next is described to do. */
  lemma {:induction false} DrainDescribes(input: seq<string>, verbose: int)
    ensures Describes(input, verbose, Drain(input, verbose))
  {
    if input != [] {
      if Stops(input[0]) {
        DescribesStop(input, verbose);
      } else {
        DrainDescribes(input[1..], VerboseStep(input[0], verbose));
        DescribesControl(input, verbose, Drain(input[1..], VerboseStep(input[0], verbose)));
      }
    }
  }

  /** The line a call returns is the last line it read, and that line is data. */
  lemma DrainReturnsLast(input: seq<string>, v: int)
    ensures var d := Drain(input, v);
      d.line.Some? ==> 0 < d.consumed <= |input| && d.line.value == input[d.consumed - 1] && Classify(d.line.value) == Data
  {
    DrainDescribes(input, v);
  }

  /** What a call does when `done` lines with replies `replies` have been
      consumed already and `d` is what it does on the rest. */
  function Resume(done: nat, replies: seq<string>, d: Drained): Drained
  {
    Drained(d.line, done + d.consumed, replies + d.replies, d.verbose)
  }

  /** One step of the loop that runs the recursion of Drain: after `k` lines
      with replies `reps`, the next line `l` either ends the call or is
      consumed and the call goes on with the rest. */
  lemma DrainStep(input: seq<string>, v: int, k: nat, reps: seq<string>)
    requires input != []
    ensures Stops(input[0]) ==>
      Resume(k, reps, Drain(input, v)) ==
      Drained(if Classify(input[0]) == Data then Some(input[0]) else None, k + 1,
              reps + Reply(input[0]), VerboseStep(input[0], v))
    ensures !Stops(input[0]) ==>
      Resume(k, reps, Drain(input, v)) ==
      Resume(k + 1, reps + Reply(input[0]), Drain(input[1..], VerboseStep(input[0], v)))
  {
    var l := input[0];
    if Stops(l) {
      assert Reply(l) == [];
      assert VerboseStep(l, v) == v;
    }
  }

  /** The line fo_heartbeat writes. */
  function HeartLine(itemsProcessed: int): (r: string)
    ensures |r| > 7 && r[..7] == "HEART: "
    ensures '\n' !in r && NUL !in r
  {
    "HEART: " + Decimal(itemsProcessed)
  }

  /** The globals of lib/libfossscheduler.c together with the two standard
      streams and the process state the file touches. */
  class Connection {
    /** items_processed */
    var itemsProcessed: int
    /** buffer: the last line received from the scheduler */
    var buffer: array<char>
    /** valid: buffer holds data for the agent */
    var valid: bool
    /** found: the agent runs under the scheduler */
    var found: bool
    /** verbose: the verbosity the scheduler asked for */
    var verbose: int
    /** lines on standard input not read yet */
    var stdin: seq<string>
    /** lines written to standard output, oldest first */
    var stdout: seq<string>
    /** fo_heartbeat is installed as the SIGALRM handler */
    var armed: bool
    /** set by exit(): the status the process ended with */
    var exitStatus: Option<int>

    ghost predicate Wf()
      reads this
    {
      buffer.Length == BUFFER_SIZE && AllWellFormed(stdin)
    }

    /** The object invariant: on top of Wf, the buffer holds a data line
        whenever `valid` says so. */
    ghost predicate Valid()
      reads this, buffer
    {
      Wf() && (valid ==> Classify(Text()) == Data)
    }

    /** The C string the buffer holds: the line fgets stored last. */
    function Text(): string
      reads this, buffer
    {
      CString(buffer[..])
    }

    predicate Running()
      reads this
    {
      exitStatus.None?
    }

    /** Process start: every global is zero, nothing is written yet, and
        standard input holds what the scheduler will send. */
    constructor (input: seq<string>)
      requires AllWellFormed(input)
      ensures Valid() && Running() && fresh(buffer)
      ensures stdin == input && stdout == []
      ensures itemsProcessed == 0 && !valid && !found && verbose == 0 && !armed
      ensures forall i :: 0 <= i < buffer.Length ==> buffer[i] == NUL
    {
      itemsProcessed := 0;
      buffer := new char[BUFFER_SIZE](_ => NUL);
      valid, found, armed := false, false, false;
      verbose := 0;
      stdin, stdout := input, [];
      exitStatus := None;
    }

    /** fo_scheduler_heart: add `i` to the processed-items count. */
    method Heart(i: int)
      requires Valid() && Running()
      modifies this`itemsProcessed
      ensures Valid()
      ensures itemsProcessed == old(itemsProcessed) + i
    {
      itemsProcessed := itemsProcessed + i;
    }

    /** fo_heartbeat, the SIGALRM handler: it can only run once connect has
        installed it. Re-arming the timer is not modelled. */
    method Heartbeat()
      requires Valid() && Running() && armed
      modifies this`stdout
      ensures Valid()
      ensures stdout == old(stdout) + [HeartLine(itemsProcessed)]
    {
      stdout := stdout + [HeartLine(itemsProcessed)];
    }

    /** fo_scheduler_connect. `argc` and `argv` are the caller's; the new
        argument count is returned, `argv` is changed in place (None is NULL). */
    method Connect(argc: int, argv: array<Option<string>>) returns (argcAfter: int)
      requires Valid() && Running()
      requires 0 < argc <= argv.Length && argv[argc - 1].Some?
      modifies this`found, this`itemsProcessed, this`valid, this`verbose, this`stdout, this`armed
      modifies buffer, argv
      ensures Valid()
      ensures found == (old(argv[argc - 1]) == Some(SCHEDULER_START))
      ensures found ==> argcAfter == argc - 1 && argv[..] == old(argv[..])[argc - 1 := None]
      ensures found ==> stdout == old(stdout) + [SVN_REV, "OK"]
      ensures !found ==> argcAfter == argc && argv[..] == old(argv[..]) && stdout == old(stdout)
      ensures armed == (old(armed) || found)
      ensures itemsProcessed == 0 && !valid && verbose == 0
      ensures forall i :: 0 <= i < buffer.Length ==> buffer[i] == NUL
    {
      found := false;
      argcAfter := argc;
      if argv[argc - 1] == Some(SCHEDULER_START) {
        stdout := stdout + [SVN_REV];
        argcAfter := argc - 1;
        argv[argcAfter] := None;
        found := true;
      }

      itemsProcessed := 0;
      forall i | 0 <= i < buffer.Length {
        buffer[i] := NUL;
      }
      valid := false;
      verbose := 0;

      if found {
        stdout := stdout + ["OK"];
        armed := true;
      }
    }

    /** fo_scheduler_disconnect: say BYE when under the scheduler, then exit(0). */
    method Disconnect()
      requires Valid() && Running()
      modifies this`stdout, this`exitStatus
      ensures Valid()
      ensures stdout == old(stdout) + (if found then ["BYE"] else [])
      ensures exitStatus == Some(0)
    {
      if found {
        stdout := stdout + ["BYE"];
      }
      exitStatus := Some(0);
    }

    /** fgets(buffer, sizeof(buffer), stdin) on a line that fits: false at end
        of input, with the buffer untouched; otherwise the buffer holds the line. */
    method ReadLine() returns (got: bool)
      requires Wf() && Running()
      modifies this`stdin, buffer
      ensures Wf()
      ensures got == (old(stdin) != [])
      ensures got ==> stdin == old(stdin)[1..] && Holds(buffer[..], old(stdin)[0])
      ensures !got ==> stdin == old(stdin) && buffer[..] == old(buffer[..])
    {
      if stdin == [] {
        return false;
      }
      var l := stdin[0];
      assert WellFormedLine(l);
      forall i | 0 <= i < |l| {
        buffer[i] := l[i];
      }
      buffer[|l|] := NUL;
      stdin := stdin[1..];
      got := true;
    }

    /** One activation of fo_scheduler_next up to its recursive call: read a
        line and act on it. `more` says that the line was END, VERBOSE or
        VERSION, after which fo_scheduler_next calls itself; otherwise `r`
        is what it returns. */
    method Receive() returns (more: bool, r: Option<string>)
      requires Wf() && Running()
      modifies this`stdin, this`stdout, this`verbose, this`valid, buffer
      ensures Wf()
      ensures old(stdin) == [] ==>
        !more && r == None && !valid && stdin == old(stdin) && stdout == old(stdout) &&
        verbose == old(verbose) && buffer[..] == old(buffer[..])
      ensures old(stdin) != [] ==>
        var l := old(stdin)[0];
        stdin == old(stdin)[1..] && Text() == l &&
        more == !Stops(l) && stdout == old(stdout) + Reply(l) &&
        verbose == VerboseStep(l, old(verbose)) &&
        (!more ==> r == (if Classify(l) == Data then Some(l) else None) && valid == r.Some?) &&
        (more ==> r == None && valid == (Classify(l) == End && old(valid)))
    {
      ghost var line := if stdin == [] then [] else stdin[0];
      var got := ReadLine();
      if !got {
        valid := false;
        return false, None;
      }
      more, r := Dispatch(line);
    }

    /** The tests fo_scheduler_next makes on the line fgets has just stored
        in the buffer, and what it does for each. */
    method Dispatch(ghost line: string) returns (more: bool, r: Option<string>)
      requires Wf() && Running()
      requires WellFormedLine(line) && Holds(buffer[..], line)
      modifies this`stdout, this`verbose, this`valid
      ensures Wf()
      ensures Text() == line
      ensures more == !Stops(line)
      ensures stdout == old(stdout) + Reply(line)
      ensures verbose == VerboseStep(line, old(verbose))
      ensures !more ==> r == (if Classify(line) == Data then Some(line) else None) && valid == r.Some?
      ensures more ==> r == None && valid == (Classify(line) == End && old(valid))
    {
      StartsWithCommand(buffer[..], line);
      HoldsCString(buffer[..], line);
      var cmd := Classify(buffer[..]);
      if cmd == Close {
        valid := false;
        return false, None;
      } else if cmd == End {
        stdout := stdout + ["OK"];
        return true, None;
      } else if cmd == Verbose {
        VerboseFromBuffer(buffer[..], line);
        verbose := Atoi(CString(buffer[8..]));
        valid := false;
        return true, None;
      } else if cmd == Version {
        stdout := stdout + [SVN_REV];
        valid := false;
        return true, None;
      } else {
        valid := true;
        return false, Some(CString(buffer[..]));
      }
    }

    /** fo_scheduler_next. Flushing standard output first has no effect in
        this model. */
    method Next() returns (r: Option<string>)
      requires Wf() && Running()
      modifies this`stdin, this`stdout, this`verbose, this`valid, buffer
      ensures Valid()
      ensures var d := Drain(old(stdin), old(verbose));
        r == d.line && stdin == old(stdin)[d.consumed..] &&
        stdout == old(stdout) + d.replies && verbose == d.verbose
      ensures valid == r.Some? && Current() == r
    {
      ghost var k, reps;
      r, k, reps := ReadCommands();
      DrainReturnsLast(old(stdin), old(verbose));
    }

    /** The recursion of fo_scheduler_next written as a loop: activations are
        repeated while they consume a control line. `k` counts the lines
        read, `reps` the replies written. */
    method ReadCommands() returns (r: Option<string>, ghost k: nat, ghost reps: seq<string>)
      requires Wf() && Running()
      modifies this`stdin, this`stdout, this`verbose, this`valid, buffer
      ensures Wf() && k <= |old(stdin)| && stdin == old(stdin)[k..]
      ensures Drain(old(stdin), old(verbose)) == Drained(r, k, reps, verbose)
      ensures stdout == old(stdout) + reps && valid == r.Some?
      ensures r.Some? ==> Text() == r.value
    {
      ghost var input, v0, out0 := stdin, verbose, stdout;
      k, reps := 0, [];
      var more := true;
      r := None;
      while more
        invariant Wf() && k <= |input| && stdin == input[k..]
        invariant stdout == out0 + reps
        invariant more ==> Drain(input, v0) == Resume(k, reps, Drain(stdin, verbose))
        invariant !more ==> Drain(input, v0) == Drained(r, k, reps, verbose) && valid == r.Some?
        invariant !more && r.Some? ==> Text() == r.value
        decreases |stdin|, more
      {
        more, r, k, reps := Activate(input, v0, out0, k, reps);
      }
    }

    /** One turn of the loop in ReadCommands: one activation, accounted
        against Drain when `k` lines with replies `reps` were read before it. */
    method Activate(ghost input: seq<string>, ghost v0: int, ghost out0: seq<string>, ghost k: nat, ghost reps: seq<string>)
      returns (more: bool, r: Option<string>, ghost k': nat, ghost reps': seq<string>)
      requires Wf() && Running() && k <= |input| && stdin == input[k..] && stdout == out0 + reps
      requires Drain(input, v0) == Resume(k, reps, Drain(stdin, verbose))
      modifies this`stdin, this`stdout, this`verbose, this`valid, buffer
      ensures Wf() && k <= k' <= |input| && stdin == input[k'..] && stdout == out0 + reps'
      ensures more ==> k < k' && Drain(input, v0) == Resume(k', reps', Drain(stdin, verbose))
      ensures !more ==> Drain(input, v0) == Drained(r, k', reps', verbose) && valid == r.Some?
      ensures !more && r.Some? ==> Text() == r.value
    {
      ghost var before, v := stdin, verbose;
      more, r := Receive();
      if before != [] {
        DrainStep(before, v, k, reps);
        reps' := reps + Reply(before[0]);
        k' := k + 1;
      } else {
        k', reps' := k, reps;
        assert Drain(before, v) == Drained(None, 0, [], v);
      }
    }

    /** fo_scheduler_current: the buffer when it holds data, NULL otherwise. */
    function Current(): (r: Option<string>)
      reads this, buffer
      requires Valid()
      ensures r.Some? == valid
      ensures r.Some? ==> Classify(r.value) == Data
    {
      if valid then Some(Text()) else None
    }
  }

  /** atoi(&buffer[8]) on a buffer holding a VERBOSE line is the argument of
      that line. */
  lemma VerboseFromBuffer(buf: seq<char>, l: string)
    requires Holds(buf, l) && WellFormedLine(l) && Classify(l) == Verbose
    ensures 8 <= |buf| && Atoi(CString(buf[8..])) == VerboseArg(l)
  {
    VerboseLineLong(l);
    HoldsCStringFrom(buf, l, 8);
  }

  /** Classifying the buffer that holds a line classifies the line. */
  lemma StartsWithCommand(buf: seq<char>, l: string)
    requires Holds(buf, l)
    ensures Classify(buf) == Classify(l)
  {
    StartsWithHeld(buf, l, "CLOSE");
    StartsWithHeld(buf, l, "END");
    StartsWithHeld(buf, l, "VERBOSE");
    StartsWithHeld(buf, l, "VERSION");
  }
}
