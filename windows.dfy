/** The per-group part of the results export (views.py, `get_output_table`,
    lines 117-156): one group's events are cut into whole-second windows from
    the earliest to the latest timestamp, each window's decision events are
    split by the sender's position in the group, and each row holds the two
    players' mean decisions, carried forward through windows without any. */
module Windows {
  import opened Wrappers

  /** A stored event as the export reads it. Timestamps are integer
      microseconds, the resolution of Python datetimes. */
  datatype Event = Event(session: string, round: int, group: int, participant: string,
                         channel: string, value: Option<real>, timestamp: int)

  /** One output row: session code, round, group, second index, then the
      mean decision of player 1 and of player 2 (None where views.py
      writes NaN). */
  datatype Row = Row(session: string, round: int, group: int, tick: nat,
                     player1: Option<real>, player2: Option<real>)

  /** Why the export aborts. */
  datatype ExportError =
    | NoEvents               // there is no first event to take the session from
    | InvalidIdInGroup(id: int)  // a decision came from a player whose position is neither 1 nor 2

  /** The group a run of windows belongs to, with its session's code. */
  datatype GroupKey = GroupKey(session: string, round: int, group: int)

  /** The player lookup: the position in its group (id_in_group) of the
      player of a participant, a session code and a round. */
  type PlayerLookup = (string, string, int) -> int

  /** The state carried from one window to the next: the events not yet
      consumed, the rows so far and the last mean of each player. */
  datatype Walk = Walk(remaining: seq<Event>, rows: seq<Row>, last1: Option<real>, last2: Option<real>)

  const MICROS_PER_SECOND: int := 1000000
  const SECONDS_PER_DAY: int := 86400
  const DECISIONS_CHANNEL: string := "decisions"

  /** An event that takes part in the means: a decision that carries a value. */
  predicate IsDecision(e: Event)
  {
    e.channel == DECISIONS_CHANNEL && e.value.Some?
  }

  predicate ValidPosition(id: int)
  {
    id == 1 || id == 2
  }

  /** Position in its group of the player who sent e. */
  function Position(key: GroupKey, lookup: PlayerLookup, e: Event): int
  {
    lookup(e.participant, key.session, key.round)
  }

  /** Index of an earliest event. */
  function ArgMin(es: seq<Event>): (k: nat)
    requires |es| > 0
    ensures k < |es|
    ensures forall i :: 0 <= i < |es| ==> es[k].timestamp <= es[i].timestamp
  {
    if |es| == 1 then 0
    else
      var k := ArgMin(es[1..]) + 1;
      if es[0].timestamp <= es[k].timestamp then 0 else k
  }

  /** Index of a latest event. */
  function ArgMax(es: seq<Event>): (k: nat)
    requires |es| > 0
    ensures k < |es|
    ensures forall i :: 0 <= i < |es| ==> es[i].timestamp <= es[k].timestamp
  {
    if |es| == 1 then 0
    else
      var k := ArgMax(es[1..]) + 1;
      if es[0].timestamp >= es[k].timestamp then 0 else k
  }

  function MinStamp(es: seq<Event>): int
    requires |es| > 0
  {
    es[ArgMin(es)].timestamp
  }

  function MaxStamp(es: seq<Event>): int
    requires |es| > 0
  {
    es[ArgMax(es)].timestamp
  }

  /** The `.seconds` of a nonnegative time difference d: its whole seconds
      with the whole days left out. */
  function WholeSeconds(d: int): nat
    requires d >= 0
  {
    (d / MICROS_PER_SECOND) % SECONDS_PER_DAY
  }

  /** The windows of a difference d fit within it. */
  lemma WholeSecondsFit(d: int)
    requires d >= 0
    ensures WholeSeconds(d) * MICROS_PER_SECOND <= d
  {
    var s := d / MICROS_PER_SECOND;
    assert s % SECONDS_PER_DAY <= s;
    assert s * MICROS_PER_SECOND <= d;
  }

  /** A window that starts before the last one ends before the span does. */
  lemma WindowInsideSpan(minT: int, maxT: int, n: nat, tick: nat)
    requires tick < n && minT + n * MICROS_PER_SECOND <= maxT
    ensures minT + tick * MICROS_PER_SECOND < maxT
    ensures minT + (tick + 1) * MICROS_PER_SECOND <= maxT
  {
  }

  /** Later windows end later. */
  lemma LaterWindowEnd(minT: int, a: int, b: int)
    requires a <= b
    ensures minT + a * MICROS_PER_SECOND <= minT + b * MICROS_PER_SECOND
  {
  }

  /** The previous window ends before a time no earlier than this one's end. */
  lemma EarlierWindowEnd(minT: int, n: int, t: int)
    requires minT + n * MICROS_PER_SECOND <= t
    ensures minT + (n - 1) * MICROS_PER_SECOND < t
  {
  }

  /** Within a day, the number of windows is the span's whole seconds. */
  lemma WholeSecondsWithinDay(d: int)
    requires 0 <= d < SECONDS_PER_DAY * MICROS_PER_SECOND
    ensures WholeSeconds(d) == d / MICROS_PER_SECOND
    ensures WholeSeconds(d) * MICROS_PER_SECOND <= d < (WholeSeconds(d) + 1) * MICROS_PER_SECOND
  {
  }

  /** How many events the pop loop takes off the front: the longest
      prefix stamped no later than t. */
  function PopCount(s: seq<Event>, t: int): (n: nat)
    ensures n <= |s|
    ensures n < |s| ==> s[n].timestamp > t
  {
    if s == [] || s[0].timestamp > t then 0 else 1 + PopCount(s[1..], t)
  }

  /** Every popped event is stamped no later than t. */
  lemma {:induction false} PopCountPrefix(s: seq<Event>, t: int)
    ensures forall j :: 0 <= j < PopCount(s, t) ==> s[j].timestamp <= t
  {
    if s != [] && s[0].timestamp <= t {
      PopCountPrefix(s[1..], t);
      forall j | 0 <= j < PopCount(s, t)
        ensures s[j].timestamp <= t
      {
        if j > 0 {
          assert s[j] == s[1..][j - 1];
        }
      }
    }
  }

  /** The decision events of s, in order. */
  function Decisions(s: seq<Event>): (r: seq<Event>)
    ensures |r| <= |s|
    ensures forall i :: 0 <= i < |r| ==> IsDecision(r[i])
  {
    if s == [] then []
    else Decisions(s[..|s| - 1]) + (if IsDecision(s[|s| - 1]) then [s[|s| - 1]] else [])
  }

  /** PopCount is the length of the prefix stamped no later than t that
      stops at an event stamped after t. */
  lemma {:induction false} PopCountIs(s: seq<Event>, t: int, n: nat)
    requires n < |s| && s[n].timestamp > t
    requires forall j :: 0 <= j < n ==> s[j].timestamp <= t
    ensures PopCount(s, t) == n
  {
    if n > 0 {
      PopCountIs(s[1..], t, n - 1);
    }
  }

  /** The decisions of a prefix one longer. */
  lemma DecisionsOfLonger(s: seq<Event>, i: nat)
    requires i < |s|
    ensures Decisions(s[..i + 1]) == Decisions(s[..i]) + (if IsDecision(s[i]) then [s[i]] else [])
  {
    assert s[..i + 1] == s[..i] + [s[i]];
    DecisionsSnoc(s[..i], s[i]);
  }

  /** Appending an event appends it to the decisions exactly when it is one. */
  lemma DecisionsSnoc(s: seq<Event>, e: Event)
    ensures Decisions(s + [e]) == Decisions(s) + (if IsDecision(e) then [e] else [])
  {
    assert (s + [e])[..|s|] == s;
  }

  /** The values of the decisions in es sent by the player at position pos. */
  function ValuesOf(es: seq<Event>, key: GroupKey, lookup: PlayerLookup, pos: int): seq<real>
  {
    if es == [] then []
    else
      var e := es[|es| - 1];
      ValuesOf(es[..|es| - 1], key, lookup, pos) +
        (if e.value.Some? && Position(key, lookup, e) == pos then [e.value.value] else [])
  }

  /** The split loop: player 1's and player 2's values, or the first
      position that is neither. */
  function Split(es: seq<Event>, key: GroupKey, lookup: PlayerLookup): Result<(seq<real>, seq<real>), ExportError>
    requires forall i :: 0 <= i < |es| ==> es[i].value.Some?
  {
    if es == [] then Ok(([], []))
    else
      match Split(es[..|es| - 1], key, lookup)
      case Err(e) => Err(e)
      case Ok(ps) =>
        var e := es[|es| - 1];
        var id := Position(key, lookup, e);
        if id == 1 then Ok((ps.0 + [e.value.value], ps.1))
        else if id == 2 then Ok((ps.0, ps.1 + [e.value.value]))
        else Err(InvalidIdInGroup(id))
  }

  function Sum(s: seq<real>): real
  {
    if s == [] then 0.0 else Sum(s[..|s| - 1]) + s[|s| - 1]
  }

  function Mean(s: seq<real>): real
    requires |s| > 0
  {
    Sum(s) / (|s| as real)
  }

  /** A player's mean for a window: the mean of its values there, or the
      previous window's mean when it sent none. */
  function Carry(values: seq<real>, last: Option<real>): Option<real>
  {
    if |values| > 0 then Some(Mean(values)) else last
  }

  /** Window number `tick`: pop the events stamped up to its end, keep the
      decisions, split them by player and append the row. */
  function Step(key: GroupKey, minT: int, lookup: PlayerLookup, tick: nat, w: Walk): Result<Walk, ExportError>
  {
    var k := PopCount(w.remaining, minT + tick * MICROS_PER_SECOND);
    match Split(Decisions(w.remaining[..k]), key, lookup)
    case Err(e) => Err(e)
    case Ok(ps) =>
      var m1 := Carry(ps.0, w.last1);
      var m2 := Carry(ps.1, w.last2);
      Ok(Walk(w.remaining[k..], w.rows + [Row(key.session, key.round, key.group, tick, m1, m2)], m1, m2))
  }

  /** The first n windows of a group's events ge, starting from no means. */
  function Windows(key: GroupKey, ge: seq<Event>, minT: int, lookup: PlayerLookup, n: nat): Result<Walk, ExportError>
  {
    if n == 0 then Ok(Walk(ge, [], None, None))
    else
      match Windows(key, ge, minT, lookup, n - 1)
      case Err(e) => Err(e)
      case Ok(w) => Step(key, minT, lookup, n - 1, w)
  }

  /** The rows of one group: one window per whole second between its
      earliest and its latest event. */
  function GroupTable(key: GroupKey, ge: seq<Event>, lookup: PlayerLookup): Result<seq<Row>, ExportError>
    requires |ge| > 0
  {
    var minT := MinStamp(ge);
    match Windows(key, ge, minT, lookup, WholeSeconds(MaxStamp(ge) - minT))
    case Err(e) => Err(e)
    case Ok(w) => Ok(w.rows)
  }

  // ---------------------------------------------------------------------
  // Properties of the window functions

  /** The kept events are exactly the decision events of s. */
  lemma {:induction false} DecisionsMembers(s: seq<Event>, x: Event)
    ensures x in Decisions(s) <==> x in s && IsDecision(x)
  {
    if s != [] {
      DecisionsMembers(s[..|s| - 1], x);
      assert s == s[..|s| - 1] + [s[|s| - 1]];
    }
  }

  /** The split succeeds exactly when every sender is at position 1 or 2;
      then it yields each player's values in order, and otherwise it reports
      the first sender at another position. */
  lemma {:induction false} SplitSpec(es: seq<Event>, key: GroupKey, lookup: PlayerLookup)
    requires forall i :: 0 <= i < |es| ==> es[i].value.Some?
    ensures Split(es, key, lookup).Ok? <==> forall i :: 0 <= i < |es| ==> ValidPosition(Position(key, lookup, es[i]))
    ensures Split(es, key, lookup).Ok? ==>
              Split(es, key, lookup).value == (ValuesOf(es, key, lookup, 1), ValuesOf(es, key, lookup, 2))
    ensures Split(es, key, lookup).Err? ==>
              exists k :: 0 <= k < |es| && !ValidPosition(Position(key, lookup, es[k])) &&
                          Split(es, key, lookup).error == InvalidIdInGroup(Position(key, lookup, es[k])) &&
                          forall j :: 0 <= j < k ==> ValidPosition(Position(key, lookup, es[j]))
  {
    if es != [] {
      var init := es[..|es| - 1];
      SplitSpec(init, key, lookup);
      assert forall i :: 0 <= i < |init| ==> init[i] == es[i];
      var r := Split(init, key, lookup);
      if r.Err? {
        var k :| 0 <= k < |init| && !ValidPosition(Position(key, lookup, init[k])) &&
                 r.error == InvalidIdInGroup(Position(key, lookup, init[k])) &&
                 forall j :: 0 <= j < k ==> ValidPosition(Position(key, lookup, init[j]));
        assert es[k] == init[k];
      } else {
        var last := |es| - 1;
        var e := es[last];
        var ps := r.value;
        var v1, v2 := ValuesOf(init, key, lookup, 1), ValuesOf(init, key, lookup, 2);
        assert ps == (v1, v2);
        var id := Position(key, lookup, e);
        if id == 1 {
          assert ValuesOf(es, key, lookup, 1) == v1 + [e.value.value];
          assert ValuesOf(es, key, lookup, 2) == v2 + [] == v2;
        } else if id == 2 {
          assert ValuesOf(es, key, lookup, 1) == v1 + [] == v1;
          assert ValuesOf(es, key, lookup, 2) == v2 + [e.value.value];
        } else {
          assert forall j :: 0 <= j < last ==> ValidPosition(Position(key, lookup, es[j]));
        }
      }
    }
  }

  /** Once the split of a prefix fails, the split of the whole fails the same way. */
  lemma {:induction false} SplitErrSticks(es: seq<Event>, k: nat, key: GroupKey, lookup: PlayerLookup)
    requires forall i :: 0 <= i < |es| ==> es[i].value.Some?
    requires k <= |es| && Split(es[..k], key, lookup).Err?
    ensures Split(es, key, lookup) == Split(es[..k], key, lookup)
    decreases |es| - k
  {
    if k < |es| {
      assert es[..k + 1][..k] == es[..k];
      SplitErrSticks(es, k + 1, key, lookup);
    } else {
      assert es[..k] == es;
    }
  }

  /** n times a lower bound of every element bounds the sum from below, and likewise above. */
  lemma {:induction false} SumBounds(s: seq<real>, lo: real, hi: real)
    requires forall i :: 0 <= i < |s| ==> lo <= s[i] <= hi
    ensures (|s| as real) * lo <= Sum(s) <= (|s| as real) * hi
  {
    if s != [] {
      SumBounds(s[..|s| - 1], lo, hi);
      assert ((|s| - 1) as real) * lo + lo == (|s| as real) * lo;
      assert ((|s| - 1) as real) * hi + hi == (|s| as real) * hi;
    }
  }

  lemma MulPositiveCancel(x: real, n: real)
    requires n > 0.0 && x * n >= 0.0
    ensures x >= 0.0
  {
  }

  /** A mean lies between the smallest and the largest value averaged; in
      particular means of decisions in [0, 1] stay in [0, 1]. */
  lemma MeanBounds(s: seq<real>, lo: real, hi: real)
    requires |s| > 0
    requires forall i :: 0 <= i < |s| ==> lo <= s[i] <= hi
    ensures lo <= Mean(s) <= hi
  {
    SumBounds(s, lo, hi);
    var n := |s| as real;
    var m := Mean(s);
    assert m * n == Sum(s);
    assert (m - lo) * n == Sum(s) - lo * n;
    assert (hi - m) * n == hi * n - Sum(s);
    MulPositiveCancel(m - lo, n);
    MulPositiveCancel(hi - m, n);
  }

  /** What one window appends: the row for second `tick`, whose mean for each
      player is the mean of that player's decisions among the events popped
      in this window, or the previous mean when there are none; and it fails
      exactly when one of those decisions comes from a position other than 1 or 2. */
  lemma StepRow(key: GroupKey, minT: int, lookup: PlayerLookup, tick: nat, w: Walk)
    ensures var k := PopCount(w.remaining, minT + tick * MICROS_PER_SECOND);
            var window := Decisions(w.remaining[..k]);
            var r := Step(key, minT, lookup, tick, w);
            && (r.Ok? <==> forall i :: 0 <= i < |window| ==> ValidPosition(Position(key, lookup, window[i])))
            && (r.Ok? ==>
                 var m1 := Carry(ValuesOf(window, key, lookup, 1), w.last1);
                 var m2 := Carry(ValuesOf(window, key, lookup, 2), w.last2);
                 r.value == Walk(w.remaining[k..], w.rows + [Row(key.session, key.round, key.group, tick, m1, m2)], m1, m2))
  {
    var k := PopCount(w.remaining, minT + tick * MICROS_PER_SECOND);
    var window := Decisions(w.remaining[..k]);
    SplitSpec(window, key, lookup);
    var split := Split(window, key, lookup);
    StepOfParts(key, minT, lookup, tick, w, w.remaining[k..], window, split);
  }

  /** A window appends one row, numbered tick and carrying the group's key
      and the new carried means. */
  lemma StepAppendsRow(key: GroupKey, minT: int, lookup: PlayerLookup, tick: nat, w: Walk)
    requires Step(key, minT, lookup, tick, w).Ok?
    ensures var r := Step(key, minT, lookup, tick, w).value;
            r.rows == w.rows + [Row(key.session, key.round, key.group, tick, r.last1, r.last2)]
  {
  }

  /** A successful run of n > 0 windows is a successful run of n - 1 windows
      followed by window n - 1. */
  lemma WindowsLast(key: GroupKey, ge: seq<Event>, minT: int, lookup: PlayerLookup, n: nat)
    requires n > 0 && Windows(key, ge, minT, lookup, n).Ok?
    ensures Windows(key, ge, minT, lookup, n - 1).Ok?
    ensures Step(key, minT, lookup, n - 1, Windows(key, ge, minT, lookup, n - 1).value) == Windows(key, ge, minT, lookup, n)
  {
  }

  /** Dropping a events and then b more drops a + b. */
  lemma DropDrop(s: seq<Event>, a: nat, b: nat)
    requires a + b <= |s|
    ensures s[a..][b..] == s[a + b..]
  {
  }

  /** A window, from w to w', leaves the events after the ones it pops. */
  lemma StepRemaining(key: GroupKey, minT: int, lookup: PlayerLookup, tick: nat, w: Walk, w': Walk)
    requires Step(key, minT, lookup, tick, w) == Ok(w')
    ensures w'.remaining == w.remaining[PopCount(w.remaining, minT + tick * MICROS_PER_SECOND)..]
  {
  }

  /** A walk after n windows has n rows, numbered 0 to n - 1 in order, all
      carrying the group's key, and its carried means are the last row's. */
  ghost predicate RowsShaped(key: GroupKey, w: Walk, n: nat)
  {
    && |w.rows| == n
    && (forall t :: 0 <= t < n ==>
          w.rows[t].tick == t && w.rows[t].session == key.session &&
          w.rows[t].round == key.round && w.rows[t].group == key.group)
    && w.last1 == (if n == 0 then None else w.rows[n - 1].player1)
    && w.last2 == (if n == 0 then None else w.rows[n - 1].player2)
  }

  /** A window keeps the rows shaped. */
  lemma StepKeepsShape(key: GroupKey, minT: int, lookup: PlayerLookup, tick: nat, w: Walk)
    requires RowsShaped(key, w, tick) && Step(key, minT, lookup, tick, w).Ok?
    ensures RowsShaped(key, Step(key, minT, lookup, tick, w).value, tick + 1)
  {
    var w' := Step(key, minT, lookup, tick, w).value;
    StepAppendsRow(key, minT, lookup, tick, w);
    assert w'.rows[tick] == Row(key.session, key.round, key.group, tick, w'.last1, w'.last2);
    assert forall t :: 0 <= t < tick ==> w'.rows[t] == w.rows[t];
  }

  /** After n windows there are n rows, numbered 0 to n - 1 in order, all
      carrying the group's key, and the carried means are the last row's. */
  lemma {:induction false} WindowsShape(key: GroupKey, ge: seq<Event>, minT: int, lookup: PlayerLookup, n: nat)
    requires Windows(key, ge, minT, lookup, n).Ok?
    ensures RowsShaped(key, Windows(key, ge, minT, lookup, n).value, n)
  {
    if n > 0 {
      WindowsShape(key, ge, minT, lookup, n - 1);
      WindowsLast(key, ge, minT, lookup, n);
      StepKeepsShape(key, minT, lookup, n - 1, Windows(key, ge, minT, lookup, n - 1).value);
    }
  }

  /** Row t's mean for each player is the mean of that player's values in
      window t, or row t - 1's mean when that player sent none there. */
  lemma CarryForward(key: GroupKey, ge: seq<Event>, minT: int, lookup: PlayerLookup, t: nat)
    requires 0 < t && Windows(key, ge, minT, lookup, t + 1).Ok?
    ensures Windows(key, ge, minT, lookup, t).Ok?
    ensures var w := Windows(key, ge, minT, lookup, t).value;
            var window := Decisions(w.remaining[..PopCount(w.remaining, minT + t * MICROS_PER_SECOND)]);
            var values1 := ValuesOf(window, key, lookup, 1);
            var values2 := ValuesOf(window, key, lookup, 2);
            var rows := Windows(key, ge, minT, lookup, t + 1).value.rows;
            && |rows| == t + 1
            && rows[t].player1 == Carry(values1, rows[t - 1].player1)
            && rows[t].player2 == Carry(values2, rows[t - 1].player2)
            && (values1 == [] ==> rows[t].player1 == rows[t - 1].player1)
            && (values2 == [] ==> rows[t].player2 == rows[t - 1].player2)
  {
    WindowsLast(key, ge, minT, lookup, t + 1);
    var w := Windows(key, ge, minT, lookup, t).value;
    WindowsShape(key, ge, minT, lookup, t);
    StepRow(key, minT, lookup, t, w);
  }

  /** The events left are a suffix of ge, and every event consumed before
      them is stamped no later than t. */
  ghost predicate ConsumedUpTo(ge: seq<Event>, rest: seq<Event>, t: int)
  {
    && |rest| <= |ge|
    && rest == ge[|ge| - |rest|..]
    && forall j :: 0 <= j < |ge| - |rest| ==> ge[j].timestamp <= t
  }

  /** The events left after n windows: the pops do not depend on the split. */
  function Rest(ge: seq<Event>, minT: int, n: nat): seq<Event>
  {
    if n == 0 then ge
    else
      var prev := Rest(ge, minT, n - 1);
      prev[PopCount(prev, minT + (n - 1) * MICROS_PER_SECOND)..]
  }

  /** A successful run of n windows leaves exactly Rest(ge, minT, n). */
  lemma {:induction false} WindowsRest(key: GroupKey, ge: seq<Event>, minT: int, lookup: PlayerLookup, n: nat)
    requires Windows(key, ge, minT, lookup, n).Ok?
    ensures Windows(key, ge, minT, lookup, n).value.remaining == Rest(ge, minT, n)
  {
    if n > 0 {
      WindowsLast(key, ge, minT, lookup, n);
      WindowsRest(key, ge, minT, lookup, n - 1);
      var prev := Windows(key, ge, minT, lookup, n - 1).value;
      var cur := Windows(key, ge, minT, lookup, n).value;
      StepRemaining(key, minT, lookup, n - 1, prev, cur);
      RestStep(ge, minT, n, prev.remaining, cur.remaining);
    }
  }

  /** Popping window n - 1 from Rest(ge, minT, n - 1) leaves Rest(ge, minT, n). */
  lemma RestStep(ge: seq<Event>, minT: int, n: nat, prev: seq<Event>, cur: seq<Event>)
    requires n > 0 && prev == Rest(ge, minT, n - 1)
    requires cur == prev[PopCount(prev, minT + (n - 1) * MICROS_PER_SECOND)..]
    ensures cur == Rest(ge, minT, n)
  {
  }

  /** Windows consume events only from the front, each event at most once:
      after n windows what is left is a suffix of ge, and every consumed
      event is stamped no later than the end of the last window. */
  lemma WindowsConsumeFront(key: GroupKey, ge: seq<Event>, minT: int, lookup: PlayerLookup, n: nat)
    requires Windows(key, ge, minT, lookup, n).Ok?
    ensures ConsumedUpTo(ge, Windows(key, ge, minT, lookup, n).value.remaining, minT + (n - 1) * MICROS_PER_SECOND)
  {
    WindowsRest(key, ge, minT, lookup, n);
    RestConsumesFront(ge, minT, n);
  }

  /** The pops consume events only from the front, up to the end of the last window. */
  lemma {:induction false} RestConsumesFront(ge: seq<Event>, minT: int, n: nat)
    ensures ConsumedUpTo(ge, Rest(ge, minT, n), minT + (n - 1) * MICROS_PER_SECOND)
  {
    if n == 0 {
      assert ge[|ge| - |ge|..] == ge;
    } else {
      RestConsumesFront(ge, minT, n - 1);
      var prev := Rest(ge, minT, n - 1);
      var t := minT + (n - 1) * MICROS_PER_SECOND;
      PopCountPrefix(prev, t);
      LaterWindowEnd(minT, n - 2, n - 1);
      ConsumeMore(ge, prev, Rest(ge, minT, n), minT + (n - 2) * MICROS_PER_SECOND, t, PopCount(prev, t));
    }
  }

  /** Popping k more events, each stamped no later than t, from what is left
      (leaving rest') keeps the consumed events at the front, up to t. */
  lemma ConsumeMore(ge: seq<Event>, rest: seq<Event>, rest': seq<Event>, t0: int, t: int, k: nat)
    requires ConsumedUpTo(ge, rest, t0) && t0 <= t && k <= |rest| && rest' == rest[k..]
    requires forall j :: 0 <= j < k ==> rest[j].timestamp <= t
    ensures ConsumedUpTo(ge, rest', t)
  {
    var c := |ge| - |rest|;
    DropDrop(ge, c, k);
    forall j | 0 <= j < c + k
      ensures ge[j].timestamp <= t
    {
      if j >= c {
        assert ge[j] == rest[j - c];
      }
    }
  }

  /** The pop loop never runs out of events: while a window ends before the
      latest timestamp, the latest event is still among the remaining ones. */
  lemma WindowsKeepLatest(key: GroupKey, ge: seq<Event>, minT: int, lookup: PlayerLookup, n: nat)
    requires |ge| > 0 && minT + n * MICROS_PER_SECOND <= MaxStamp(ge)
    requires Windows(key, ge, minT, lookup, n).Ok?
    ensures var w := Windows(key, ge, minT, lookup, n).value;
            var c := |ge| - |w.remaining|;
            && c <= ArgMax(ge) < |ge|
            && w.remaining[ArgMax(ge) - c].timestamp == MaxStamp(ge)
  {
    WindowsConsumeFront(key, ge, minT, lookup, n);
    var w := Windows(key, ge, minT, lookup, n).value;
    var c := |ge| - |w.remaining|;
    var a := ArgMax(ge);
    EarlierWindowEnd(minT, n, MaxStamp(ge));
    assert ge[a].timestamp > minT + (n - 1) * MICROS_PER_SECOND;
    assert a >= c;
    assert w.remaining[a - c] == ge[a];
  }

  /** A failure in one window is the failure of the whole group. */
  lemma {:induction false} WindowsErrSticks(key: GroupKey, ge: seq<Event>, minT: int, lookup: PlayerLookup, t: nat, n: nat)
    requires t <= n && Windows(key, ge, minT, lookup, t).Err?
    ensures Windows(key, ge, minT, lookup, n) == Windows(key, ge, minT, lookup, t)
    decreases n - t
  {
    if t < n {
      WindowsErrSticks(key, ge, minT, lookup, t + 1, n);
    }
  }

  predicate SortedByTime(s: seq<Event>)
  {
    forall i, j :: 0 <= i < j < |s| ==> s[i].timestamp <= s[j].timestamp
  }

  /** In a list in time order the first event is an earliest and the last a latest. */
  lemma StampsOfOrdered(es: seq<Event>)
    requires |es| > 0 && SortedByTime(es)
    ensures MinStamp(es) == es[0].timestamp && MaxStamp(es) == es[|es| - 1].timestamp
  {
    assert es[0].timestamp <= es[ArgMin(es)].timestamp;
    assert es[ArgMax(es)].timestamp <= es[|es| - 1].timestamp;
  }

  /** The pop loop stops at the first event stamped after the window's end:
      after n > 0 windows, the first remaining event is stamped after the
      end of window n - 1. */
  lemma WindowsStopAfterEnd(key: GroupKey, ge: seq<Event>, minT: int, lookup: PlayerLookup, n: nat)
    requires n > 0 && Windows(key, ge, minT, lookup, n).Ok?
    ensures var w := Windows(key, ge, minT, lookup, n).value;
            |w.remaining| > 0 ==> w.remaining[0].timestamp > minT + (n - 1) * MICROS_PER_SECOND
  {
    var prev := Windows(key, ge, minT, lookup, n - 1).value;
    StepRemaining(key, minT, lookup, n - 1, prev, Windows(key, ge, minT, lookup, n).value);
  }

  /** In a time-ordered list, a prefix whose events are all stamped no later
      than t and that stops at an event stamped after t is exactly the events
      stamped no later than t. */
  lemma SortedCut(s: seq<Event>, c: nat, t: int)
    requires SortedByTime(s) && c <= |s|
    requires forall j :: 0 <= j < c ==> s[j].timestamp <= t
    requires c < |s| ==> s[c].timestamp > t
    ensures forall j :: 0 <= j < |s| ==> (j < c <==> s[j].timestamp <= t)
  {
    forall j | c <= j < |s|
      ensures s[j].timestamp > t
    {
      assert s[c].timestamp <= s[j].timestamp;
    }
  }

  /** For events in time order, the windows cut by whole seconds: after n > 0
      windows the consumed events are exactly those stamped no later than
      the end of window n - 1, so window t takes exactly the events of its second. */
  lemma SortedWindows(key: GroupKey, ge: seq<Event>, minT: int, lookup: PlayerLookup, n: nat)
    requires SortedByTime(ge)
    requires n > 0 && Windows(key, ge, minT, lookup, n).Ok?
    ensures var c := |ge| - |Windows(key, ge, minT, lookup, n).value.remaining|;
            forall j :: 0 <= j < |ge| ==> (j < c <==> ge[j].timestamp <= minT + (n - 1) * MICROS_PER_SECOND)
  {
    var w := Windows(key, ge, minT, lookup, n).value;
    var c := |ge| - |w.remaining|;
    WindowsConsumeFront(key, ge, minT, lookup, n);
    WindowsStopAfterEnd(key, ge, minT, lookup, n);
    if c < |ge| {
      assert ge[c] == w.remaining[0];
    }
    SortedCut(ge, c, minT + (n - 1) * MICROS_PER_SECOND);
  }

  /** A group's table has one row per whole second of its span, numbered from
      0 in order and carrying the group's key; for spans under a day that is
      the span in seconds, rounded down. */
  lemma GroupTableShape(key: GroupKey, ge: seq<Event>, lookup: PlayerLookup)
    requires |ge| > 0 && GroupTable(key, ge, lookup).Ok?
    ensures var rows := GroupTable(key, ge, lookup).value;
            && |rows| == WholeSeconds(MaxStamp(ge) - MinStamp(ge))
            && (forall t :: 0 <= t < |rows| ==>
                  rows[t] == Row(key.session, key.round, key.group, t, rows[t].player1, rows[t].player2))
            && (MaxStamp(ge) - MinStamp(ge) < SECONDS_PER_DAY * MICROS_PER_SECOND ==>
                  |rows| == (MaxStamp(ge) - MinStamp(ge)) / MICROS_PER_SECOND)
  {
    var minT := MinStamp(ge);
    var d := MaxStamp(ge) - minT;
    var n := WholeSeconds(d);
    GroupTableOfWalk(key, ge, lookup, minT, n, Windows(key, ge, minT, lookup, n));
    WindowsShape(key, ge, minT, lookup, n);
    if d < SECONDS_PER_DAY * MICROS_PER_SECOND {
      WholeSecondsWithinDay(d);
    }
  }

  /** GroupTable in terms of the walk over all of its windows. */
  lemma GroupTableOfWalk(key: GroupKey, ge: seq<Event>, lookup: PlayerLookup, minT: int, n: nat, r: Result<Walk, ExportError>)
    requires |ge| > 0 && minT == MinStamp(ge) && n == WholeSeconds(MaxStamp(ge) - minT)
    requires Windows(key, ge, minT, lookup, n) == r
    ensures GroupTable(key, ge, lookup) == if r.Ok? then Ok(r.value.rows) else Err(r.error)
  {
  }

  /** Step assembled from the results of the pop and split loops. */
  lemma StepOfParts(key: GroupKey, minT: int, lookup: PlayerLookup, tick: nat, w: Walk,
                    rest: seq<Event>, tickEvents: seq<Event>, split: Result<(seq<real>, seq<real>), ExportError>)
    requires rest == w.remaining[PopCount(w.remaining, minT + tick * MICROS_PER_SECOND)..]
    requires tickEvents == Decisions(w.remaining[..PopCount(w.remaining, minT + tick * MICROS_PER_SECOND)])
    requires split == Split(tickEvents, key, lookup)
    ensures split.Err? ==> Step(key, minT, lookup, tick, w) == Err(split.error)
    ensures split.Ok? ==>
              var m1 := Carry(split.value.0, w.last1);
              var m2 := Carry(split.value.1, w.last2);
              Step(key, minT, lookup, tick, w) ==
                Ok(Walk(rest, w.rows + [Row(key.session, key.round, key.group, tick, m1, m2)], m1, m2))
  {
  }

  // ---------------------------------------------------------------------
  // The loops of the export, proved against the functions above

  /** The pop loop: take events off the front of the group's list while they
      are stamped no later than currT, keeping the decisions among them. The
      list ends non-empty because some event is stamped after currT. */
  method PopWindow(groupEvents: seq<Event>, currT: int) returns (rest: seq<Event>, tickEvents: seq<Event>)
    requires exists k :: 0 <= k < |groupEvents| && groupEvents[k].timestamp > currT
    ensures rest == groupEvents[PopCount(groupEvents, currT)..]
    ensures tickEvents == Decisions(groupEvents[..PopCount(groupEvents, currT)])
    ensures |rest| > 0
  {
    ghost var keep :| 0 <= keep < |groupEvents| && groupEvents[keep].timestamp > currT;
    ghost var popped := 0;
    rest := groupEvents;
    tickEvents := [];
    while rest[0].timestamp <= currT
      invariant 0 <= popped <= keep < |groupEvents|
      invariant rest == groupEvents[popped..]
      invariant forall j :: 0 <= j < popped ==> groupEvents[j].timestamp <= currT
      invariant tickEvents == Decisions(groupEvents[..popped])
      decreases |rest|
    {
      var e := rest[0];
      DecisionsOfLonger(groupEvents, popped);
      rest := rest[1..];
      if e.channel == DECISIONS_CHANNEL && e.value.Some? {
        tickEvents := tickEvents + [e];
      }
      popped := popped + 1;
    }
    PopCountIs(groupEvents, currT, popped);
  }

  /** The split loop over one window's decisions. */
  method SplitByPosition(tickEvents: seq<Event>, key: GroupKey, lookup: PlayerLookup)
    returns (r: Result<(seq<real>, seq<real>), ExportError>)
    requires forall i :: 0 <= i < |tickEvents| ==> tickEvents[i].value.Some?
    ensures r == Split(tickEvents, key, lookup)
  {
    var p1Decisions: seq<real> := [];
    var p2Decisions: seq<real> := [];
    for i := 0 to |tickEvents|
      invariant Split(tickEvents[..i], key, lookup) == Ok((p1Decisions, p2Decisions))
    {
      var e := tickEvents[i];
      assert tickEvents[..i + 1][..i] == tickEvents[..i];
      var id := lookup(e.participant, key.session, key.round);
      if id == 1 {
        p1Decisions := p1Decisions + [e.value.value];
      } else if id == 2 {
        p2Decisions := p2Decisions + [e.value.value];
      } else {
        SplitErrSticks(tickEvents, i + 1, key, lookup);
        return Err(InvalidIdInGroup(id));
      }
    }
    assert tickEvents[..|tickEvents|] == tickEvents;
    return Ok((p1Decisions, p2Decisions));
  }

  /** The body of the per-second loop: pop window `tick`, split its
      decisions by player and append the row with the players' means. */
  method NextWindow(key: GroupKey, minT: int, lookup: PlayerLookup, tick: nat, w: Walk)
    returns (r: Result<Walk, ExportError>)
    requires exists k :: 0 <= k < |w.remaining| && w.remaining[k].timestamp > minT + tick * MICROS_PER_SECOND
    ensures r == Step(key, minT, lookup, tick, w)
  {
    var currT := minT + tick * MICROS_PER_SECOND;
    var remaining, tickEvents := PopWindow(w.remaining, currT);
    var split := SplitByPosition(tickEvents, key, lookup);
    StepOfParts(key, minT, lookup, tick, w, remaining, tickEvents, split);
    if split.Err? {
      return Err(split.error);
    }
    var p1Decisions, p2Decisions := split.value.0, split.value.1;
    var p1Mean, p2Mean := w.last1, w.last2;
    if |p1Decisions| > 0 {
      p1Mean := Some(Mean(p1Decisions));
    }
    if |p2Decisions| > 0 {
      p2Mean := Some(Mean(p2Decisions));
    }
    return Ok(Walk(remaining, w.rows + [Row(key.session, key.round, key.group, tick, p1Mean, p2Mean)], p1Mean, p2Mean));
  }

  /** One more window of a group whose latest event is stamped after the
      window's end: the loop body of the export's per-second walk. */
  method AdvanceWindow(key: GroupKey, groupEvents: seq<Event>, minT: int, lookup: PlayerLookup, tick: nat, w: Walk)
    returns (r: Result<Walk, ExportError>)
    requires |groupEvents| > 0 && minT + (tick + 1) * MICROS_PER_SECOND <= MaxStamp(groupEvents)
    requires Windows(key, groupEvents, minT, lookup, tick) == Ok(w)
    ensures r == Windows(key, groupEvents, minT, lookup, tick + 1)
  {
    ghost var latest := ArgMax(groupEvents) - (|groupEvents| - |w.remaining|);
    assert 0 <= latest < |w.remaining| && w.remaining[latest].timestamp > minT + tick * MICROS_PER_SECOND by {
      WindowsKeepLatest(key, groupEvents, minT, lookup, tick);
    }
    r := NextWindow(key, minT, lookup, tick, w);
  }

  /** The per-second loop: the first n windows of a group whose latest
      event is stamped no earlier than the end of window n - 1. */
  method WalkWindows(key: GroupKey, groupEvents: seq<Event>, minT: int, lookup: PlayerLookup, n: nat)
    returns (r: Result<Walk, ExportError>)
    requires |groupEvents| > 0 && minT + n * MICROS_PER_SECOND <= MaxStamp(groupEvents)
    ensures r == Windows(key, groupEvents, minT, lookup, n)
  {
    var walk := Walk(groupEvents, [], None, None);
    for tick := 0 to n
      invariant Windows(key, groupEvents, minT, lookup, tick) == Ok(walk)
    {
      WindowInsideSpan(minT, MaxStamp(groupEvents), n, tick);
      var next := AdvanceWindow(key, groupEvents, minT, lookup, tick, walk);
      if next.Err? {
        WindowsErrSticks(key, groupEvents, minT, lookup, tick + 1, n);
        return next;
      }
      walk := next.value;
    }
    return Ok(walk);
  }

  /** The rows of one group, computed window by window. */
  method GroupRows(key: GroupKey, groupEvents: seq<Event>, lookup: PlayerLookup)
    returns (r: Result<seq<Row>, ExportError>)
    requires |groupEvents| > 0
    ensures r == GroupTable(key, groupEvents, lookup)
  {
    var minT := MinStamp(groupEvents);
    var maxT := MaxStamp(groupEvents);
    var n := WholeSeconds(maxT - minT);
    WholeSecondsFit(maxT - minT);
    var all := WalkWindows(key, groupEvents, minT, lookup, n);
    GroupTableOfWalk(key, groupEvents, lookup, minT, n, all);
    if all.Err? {
      return Err(all.error);
    }
    return Ok(all.value.rows);
  }
}
