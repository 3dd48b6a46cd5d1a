/** A worked example of the export: two players who each send one decision
    per second over a three-second span get three rows, one per whole second,
    each holding that second's two decisions; the events of the last second
    are not popped. The group is its round's only one, so the whole export is
    the header and those rows. */
module Scenarios {
  import opened Wrappers
  import opened Windows
  import opened Export

  /** A lookup that puts participant "a" at position 1 and everyone else at 2. */
  function ByName(participant: string, session: string, round: int): int
  {
    if participant == "a" then 1 else 2
  }

  /** A decision event of group 1 in round 1 of session "s". */
  function D(p: string, v: real, t: int): Event
  {
    Event("s", 1, 1, p, DECISIONS_CHANNEL, Some(v), t)
  }

  /** Two players, one decision each at seconds 0, 1, 2 and 3. */
  function Sample(x: seq<real>, y: seq<real>): seq<Event>
    requires |x| == 4 && |y| == 4
  {
    [D("a", x[0], 0), D("b", y[0], 0), D("a", x[1], 1000000), D("b", y[1], 1000000),
     D("a", x[2], 2000000), D("b", y[2], 2000000), D("a", x[3], 3000000), D("b", y[3], 3000000)]
  }

  /** The rows the sample is cut into. */
  function SampleRows(x: seq<real>, y: seq<real>): seq<Row>
    requires |x| == 4 && |y| == 4
  {
    [Row("s", 1, 1, 0, Some(x[0]), Some(y[0])), Row("s", 1, 1, 1, Some(x[1]), Some(y[1])),
     Row("s", 1, 1, 2, Some(x[2]), Some(y[2]))]
  }

  /** A span of exactly three seconds gives three rows, each with both
      players' decisions of its second. */
  lemma ThreeSeconds(x: seq<real>, y: seq<real>)
    requires |x| == 4 && |y| == 4
    ensures GroupTable(GroupKey("s", 1, 1), Sample(x, y), ByName) == Ok(SampleRows(x, y))
  {
    var ge := Sample(x, y);
    SampleStamps(x, y);
    WholeSecondsWithinDay(3000000);
    assert WholeSeconds(MaxStamp(ge) - MinStamp(ge)) == 3;
    ThreeWindows(x, y);
    GroupTableOfWalk(GroupKey("s", 1, 1), ge, ByName, 0, 3, Windows.Windows(GroupKey("s", 1, 1), ge, 0, ByName, 3));
  }

  /** The whole export of the sample: its one round and one group give the
      header and the group's three rows, keyed by the first event's session. */
  lemma WholeExport(x: seq<real>, y: seq<real>)
    requires |x| == 4 && |y| == 4
    ensures OutputTable(Sample(x, y), ByName) == Ok((HEADER, SampleRows(x, y)))
  {
    ThreeSeconds(x, y);
    OneGroupExport(Sample(x, y), ByName, 1, 1, SampleRows(x, y));
  }

  /** The sample spans seconds 0 to 3. */
  lemma SampleStamps(x: seq<real>, y: seq<real>)
    requires |x| == 4 && |y| == 4
    ensures MinStamp(Sample(x, y)) == 0 && MaxStamp(Sample(x, y)) == 3000000
  {
    StampsOfOrdered(Sample(x, y));
  }

  /** The three windows of the sample, one at a time. */
  lemma ThreeWindows(x: seq<real>, y: seq<real>)
    requires |x| == 4 && |y| == 4
    ensures Windows.Windows(GroupKey("s", 1, 1), Sample(x, y), 0, ByName, 3) ==
              Ok(Walk(Sample(x, y)[6..], SampleRows(x, y), Some(x[2]), Some(y[2])))
  {
    var key := GroupKey("s", 1, 1);
    var ge := Sample(x, y);
    var r0 := Row("s", 1, 1, 0, Some(x[0]), Some(y[0]));
    var r1 := Row("s", 1, 1, 1, Some(x[1]), Some(y[1]));
    var r2 := Row("s", 1, 1, 2, Some(x[2]), Some(y[2]));
    var w0 := Walk(ge, [], None, None);
    var w1 := Walk(ge[2..], [r0], Some(x[0]), Some(y[0]));
    var w2 := Walk(ge[4..], [r0, r1], Some(x[1]), Some(y[1]));
    var w3 := Walk(ge[6..], [r0, r1, r2], Some(x[2]), Some(y[2]));
    assert ge[2..][2..] == ge[4..];
    assert ge[4..][2..] == ge[6..];
    WindowStep(key, ge, x[0], y[0], 0, w0, w1);
    WindowStep(key, ge[2..], x[1], y[1], 1, w1, w2);
    WindowStep(key, ge[4..], x[2], y[2], 2, w2, w3);
    assert Windows.Windows(key, ge, 0, ByName, 1) == Ok(w1);
    assert Windows.Windows(key, ge, 0, ByName, 2) == Ok(w2);
  }

  /** A window whose first two remaining events are player 1's and player 2's
      decisions at its own end, followed by a later event, takes exactly those
      two and records their values as the means. */
  lemma WindowStep(key: GroupKey, rest: seq<Event>, x: real, y: real, tick: nat, w: Walk, w': Walk)
    requires |rest| >= 4 && w.remaining == rest
    requires rest[0] == D("a", x, tick * 1000000) && rest[1] == D("b", y, tick * 1000000)
    requires rest[2].timestamp > tick * 1000000
    requires w' == Walk(rest[2..], w.rows + [Row(key.session, key.round, key.group, tick, Some(x), Some(y))], Some(x), Some(y))
    ensures Step(key, 0, ByName, tick, w) == Ok(w')
  {
    PopPair(rest, x, y, tick);
    SplitPair(rest[0], rest[1], key, ByName);
    OneMean(x);
    OneMean(y);
    StepOfParts(key, 0, ByName, tick, w, rest[2..], [rest[0], rest[1]], Split([rest[0], rest[1]], key, ByName));
  }

  /** The pop of such a window takes the two decisions and stops. */
  lemma PopPair(rest: seq<Event>, x: real, y: real, tick: nat)
    requires |rest| >= 4
    requires rest[0] == D("a", x, tick * 1000000) && rest[1] == D("b", y, tick * 1000000)
    requires rest[2].timestamp > tick * 1000000
    ensures PopCount(rest, 0 + tick * MICROS_PER_SECOND) == 2
    ensures Decisions(rest[..2]) == [rest[0], rest[1]]
  {
    PopCountIs(rest, 0 + tick * MICROS_PER_SECOND, 2);
    TwoDecisions(rest);
  }

  /** Two leading decision events are the decisions of the first two events. */
  lemma TwoDecisions(s: seq<Event>)
    requires |s| >= 2 && IsDecision(s[0]) && IsDecision(s[1])
    ensures Decisions(s[..2]) == [s[0], s[1]]
  {
    assert s[..0] == [];
    DecisionsOfLonger(s, 0);
    DecisionsOfLonger(s, 1);
  }

  /** The mean of one value is that value. */
  lemma OneMean(x: real)
    ensures Mean([x]) == x
  {
    assert [x][..0] == [];
    assert Sum([x]) == x;
  }

  /** The split of one decision from each player. */
  lemma SplitPair(a: Event, b: Event, key: GroupKey, lookup: PlayerLookup)
    requires a.value.Some? && b.value.Some?
    requires Position(key, lookup, a) == 1 && Position(key, lookup, b) == 2
    ensures Split([a, b], key, lookup) == Ok(([a.value.value], [b.value.value]))
  {
    var one := [a];
    assert [a, b][..1] == one;
    assert one[..0] == [];
    var none: seq<real> := [];
    assert none + [a.value.value] == [a.value.value];
    assert none + [b.value.value] == [b.value.value];
    assert Split(one, key, lookup) == Ok(([a.value.value], []));
  }
}
