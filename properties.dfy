/** What the protocol promises, stated on the model of fo_scheduler_next
    (Drain) and of the heartbeat line: the conversations a scheduler can
    have with an agent, line by line. */
module ProtocolProperties {
  import opened CStd
  import opened FossScheduler

  /** Describes fixes the behaviour of a call completely: Drain is the only
      behaviour that fits it. With DrainDescribes this makes Describes an
      independent definition of fo_scheduler_next. */
  lemma DrainUnique(input: seq<string>, v: int, d: Drained)
    requires Describes(input, v, d)
    ensures d == Drain(input, v)
  {
    DrainDescribes(input, v);
  }

  /** fo_scheduler_next returns a line exactly when some data line comes
      before any CLOSE line and before the end of the input, and then it
      returns the first such line; everything before it was END, VERBOSE or
      VERSION. */
  lemma {:induction false} ReturnsFirstData(input: seq<string>, v: int)
    ensures Drain(input, v).line.Some? <==>
      exists i :: 0 <= i < |input| && Classify(input[i]) == Data && forall j :: 0 <= j < i ==> !Stops(input[j])
    ensures forall i :: 0 <= i < |input| && Classify(input[i]) == Data && (forall j :: 0 <= j < i ==> !Stops(input[j])) ==>
      Drain(input, v).line == Some(input[i])
  {
    if input != [] {
      var l := input[0];
      if Stops(l) {
        forall i | 0 < i < |input| && Classify(input[i]) == Data
          ensures exists j :: 0 <= j < i && Stops(input[j])
        {
          assert Stops(input[0]);
        }
      } else {
        var rest := input[1..];
        var w := VerboseStep(l, v);
        ReturnsFirstData(rest, w);
        assert Classify(l) != Data;
        if Drain(rest, w).line.Some? {
          var i :| 0 <= i < |rest| && Classify(rest[i]) == Data && forall j :: 0 <= j < i ==> !Stops(rest[j]);
          assert input[i + 1] == rest[i];
          assert forall j :: 0 <= j < i + 1 ==> !Stops(input[j]) by {
            forall j | 0 < j < i + 1 ensures !Stops(input[j]) {
              assert input[j] == rest[j - 1];
            }
          }
        }
        forall i | 0 <= i < |input| && Classify(input[i]) == Data && (forall j :: 0 <= j < i ==> !Stops(input[j]))
          ensures i > 0 && Classify(rest[i - 1]) == Data && forall j :: 0 <= j < i - 1 ==> !Stops(rest[j])
        {
          assert i > 0;
          assert rest[i - 1] == input[i];
          forall j | 0 <= j < i - 1 ensures !Stops(rest[j]) {
            assert rest[j] == input[j + 1];
          }
        }
      }
    }
  }

  /** A data line is handed to the caller verbatim, and nothing is written. */
  lemma DataLineReturned(l: string, rest: seq<string>, v: int)
    requires Classify(l) == Data
    ensures Drain([l] + rest, v) == Drained(Some(l), 1, [], v)
  {
    assert ([l] + rest)[0] == l;
  }

  /** A CLOSE line ends the job: nothing is returned and nothing written,
      whatever follows it. */
  lemma CloseEndsJob(l: string, rest: seq<string>, v: int)
    requires StartsWith(l, "CLOSE")
    ensures Drain([l] + rest, v) == Drained(None, 1, [], v)
  {
    assert ([l] + rest)[0] == l;
  }

  /** END followed by data: exactly one OK is written before the data line
      is returned. */
  lemma EndThenData(l: string, v: int)
    requires Classify(l) == Data
    ensures Drain(["END\n", l], v) == Drained(Some(l), 2, ["OK"], v)
  {
    assert StartsWith("END\n", "END");
    assert ["END\n", l][1..] == [l];
  }

  /** VERBOSE <n> followed by data: the verbosity becomes n, nothing is
      written, and the data line is still returned. */
  lemma VerboseThenData(n: int, l: string, v: int)
    requires Classify(l) == Data
    ensures Drain(["VERBOSE " + Decimal(n) + "\n", l], v) == Drained(Some(l), 2, [], n)
  {
    var c := "VERBOSE " + Decimal(n) + "\n";
    assert c[..7] == "VERBOSE";
    assert c[8..] == Decimal(n) + "\n";
    AtoiDecimal(n, "\n");
    assert VerboseStep(c, v) == n;
    assert [c, l][1..] == [l];
  }

  /** VERSION followed by data: the version line is written and the call
      goes on to return the data line. */
  lemma VersionThenData(l: string, v: int)
    requires Classify(l) == Data
    ensures Drain(["VERSION\n", l], v) == Drained(Some(l), 2, [SVN_REV], v)
  {
    assert StartsWith("VERSION\n", "VERSION");
    assert ["VERSION\n", l][1..] == [l];
  }

  /** While waiting for work the agent only ever writes OK and the version
      line: never BYE, never a heartbeat. */
  lemma {:induction false} RepliesVocabulary(ls: seq<string>)
    ensures forall x :: x in Replies(ls) ==> x == "OK" || x == SVN_REV
  {
    if ls != [] {
      RepliesVocabulary(ls[1..]);
    }
  }

  /** The heartbeat line carries the processed-items count: it is "HEART: "
      followed by text that atoi reads back as the count. */
  lemma HeartLineCarriesCount(n: int)
    ensures |HeartLine(n)| > 7 && HeartLine(n)[..7] == "HEART: "
    ensures Atoi(HeartLine(n)[7..]) == n
  {
    assert HeartLine(n)[7..] == Decimal(n);
    AtoiDecimal(n, []);
    assert Decimal(n) + [] == Decimal(n);
  }
}
