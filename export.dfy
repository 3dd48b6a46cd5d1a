/** The results export (views.py, `get_output_table`): events are grouped
    by round and then by group, in the order in which each round and each
    group of a round first appears, and the table is every group's rows in
    that order, under a fixed header. */
module Export {
  import opened Wrappers
  import opened Windows

  const HEADER: seq<string> := ["session", "round", "group", "tick", "player1", "player2"]

  /** The rounds of es, each once, in order of first appearance. */
  function RoundOrder(es: seq<Event>): seq<int>
  {
    if es == [] then []
    else
      var rs := RoundOrder(es[..|es| - 1]);
      var e := es[|es| - 1];
      if e.round in rs then rs else rs + [e.round]
  }

  /** The groups of round r in es, each once, in order of first appearance. */
  function GroupOrder(es: seq<Event>, r: int): seq<int>
  {
    if es == [] then []
    else
      var gs := GroupOrder(es[..|es| - 1], r);
      var e := es[|es| - 1];
      if e.round == r && e.group !in gs then gs + [e.group] else gs
  }

  /** The events of round r and group g, in list order. */
  function Bucket(es: seq<Event>, r: int, g: int): seq<Event>
  {
    if es == [] then []
    else
      var e := es[|es| - 1];
      Bucket(es[..|es| - 1], r, g) + (if e.round == r && e.group == g then [e] else [])
  }

  /** A group is listed for a round exactly when its bucket is not empty. */
  lemma {:induction false} GroupOrderMembers(es: seq<Event>, r: int, g: int)
    ensures g in GroupOrder(es, r) <==> |Bucket(es, r, g)| > 0
  {
    if es != [] {
      GroupOrderMembers(es[..|es| - 1], r, g);
    }
  }

  /** A round is listed exactly when some event belongs to it, and then it
      lists at least one group. */
  lemma {:induction false} RoundOrderMembers(es: seq<Event>, r: int)
    ensures r in RoundOrder(es) <==> exists i :: 0 <= i < |es| && es[i].round == r
    ensures r in RoundOrder(es) <==> GroupOrder(es, r) != []
  {
    if es != [] {
      var init := es[..|es| - 1];
      RoundOrderMembers(init, r);
      assert forall i :: 0 <= i < |init| ==> init[i] == es[i];
      if r in RoundOrder(init) {
        var i :| 0 <= i < |init| && init[i].round == r;
        assert es[i].round == r;
      }
    }
  }

  /** Each event lands in the bucket of its own round and group, and only there. */
  lemma {:induction false} BucketMembers(es: seq<Event>, r: int, g: int, x: Event)
    ensures x in Bucket(es, r, g) <==> x in es && x.round == r && x.group == g
  {
    if es != [] {
      BucketMembers(es[..|es| - 1], r, g, x);
      assert es == es[..|es| - 1] + [es[|es| - 1]];
    }
  }

  /** Each round is listed once, and each group once within its round, so
      every group contributes one run of rows. */
  lemma {:induction false} OrdersDistinct(es: seq<Event>, r: int)
    ensures forall i, j :: 0 <= i < j < |RoundOrder(es)| ==> RoundOrder(es)[i] != RoundOrder(es)[j]
    ensures forall i, j :: 0 <= i < j < |GroupOrder(es, r)| ==> GroupOrder(es, r)[i] != GroupOrder(es, r)[j]
  {
    if es != [] {
      OrdersDistinct(es[..|es| - 1], r);
    }
  }

  /** The rows of the groups gs of round r, one group after the other. */
  function GroupsRows(es: seq<Event>, code: string, r: int, gs: seq<int>, lookup: PlayerLookup): Result<seq<Row>, ExportError>
    requires forall g :: g in gs ==> g in GroupOrder(es, r)
  {
    if gs == [] then Ok([])
    else
      match GroupsRows(es, code, r, gs[..|gs| - 1], lookup)
      case Err(e) => Err(e)
      case Ok(before) =>
        var g := gs[|gs| - 1];
        GroupOrderMembers(es, r, g);
        match GroupTable(GroupKey(code, r, g), Bucket(es, r, g), lookup)
        case Err(e) => Err(e)
        case Ok(rows) => Ok(before + rows)
  }

  /** The rows of the rounds rs, one round after the other. */
  function RoundsRows(es: seq<Event>, code: string, rs: seq<int>, lookup: PlayerLookup): Result<seq<Row>, ExportError>
  {
    if rs == [] then Ok([])
    else
      match RoundsRows(es, code, rs[..|rs| - 1], lookup)
      case Err(e) => Err(e)
      case Ok(before) =>
        match GroupsRows(es, code, rs[|rs| - 1], GroupOrder(es, rs[|rs| - 1]), lookup)
        case Err(e) => Err(e)
        case Ok(rows) => Ok(before + rows)
  }

  /** The export: the header and every group's rows, with the session code
      of the first event; no events at all is an error. */
  function OutputTable(es: seq<Event>, lookup: PlayerLookup): Result<(seq<string>, seq<Row>), ExportError>
  {
    if es == [] then Err(NoEvents)
    else
      match RoundsRows(es, es[0].session, RoundOrder(es), lookup)
      case Err(e) => Err(e)
      case Ok(rows) => Ok((HEADER, rows))
  }

  /** Every exported row carries the first event's session code and belongs
      to a round and group that occur in the events, and the header is fixed. */
  lemma ExportedRows(es: seq<Event>, lookup: PlayerLookup)
    ensures OutputTable(es, lookup).Ok? ==> OutputTable(es, lookup).value.0 == HEADER
    ensures OutputTable(es, lookup).Ok? ==>
              forall row :: row in OutputTable(es, lookup).value.1 ==>
                row.session == es[0].session && row.round in RoundOrder(es) && row.group in GroupOrder(es, row.round)
  {
    if OutputTable(es, lookup).Ok? {
      RoundsRowsFrom(es, es[0].session, RoundOrder(es), lookup);
    }
  }

  /** The converse of ExportedRows: every row of a listed round and group's
      table, keyed by the first event's session, is in the export. */
  lemma GroupRowsInExport(es: seq<Event>, lookup: PlayerLookup, r: int, g: int)
    requires r in RoundOrder(es) && g in GroupOrder(es, r)
    ensures |es| > 0 && |Bucket(es, r, g)| > 0
    ensures OutputTable(es, lookup).Ok? ==>
              var table := GroupTable(GroupKey(es[0].session, r, g), Bucket(es, r, g), lookup);
              table.Ok? && forall row :: row in table.value ==> row in OutputTable(es, lookup).value.1
  {
    GroupOrderMembers(es, r, g);
    if es != [] {
      RoundsRowsContain(es, es[0].session, RoundOrder(es), r, g, lookup);
    }
  }

  lemma {:induction false} RoundsRowsContain(es: seq<Event>, code: string, rs: seq<int>, r: int, g: int, lookup: PlayerLookup)
    requires r in rs && g in GroupOrder(es, r)
    ensures |Bucket(es, r, g)| > 0
    ensures RoundsRows(es, code, rs, lookup).Ok? ==>
              var table := GroupTable(GroupKey(code, r, g), Bucket(es, r, g), lookup);
              table.Ok? && forall row :: row in table.value ==> row in RoundsRows(es, code, rs, lookup).value
  {
    GroupOrderMembers(es, r, g);
    if RoundsRows(es, code, rs, lookup).Ok? {
      var init := rs[..|rs| - 1];
      if r in init {
        RoundsRowsContain(es, code, init, r, g, lookup);
      } else {
        assert r == rs[|rs| - 1];
        GroupsRowsContain(es, code, r, GroupOrder(es, r), g, lookup);
      }
    }
  }

  lemma {:induction false} GroupsRowsContain(es: seq<Event>, code: string, r: int, gs: seq<int>, g: int, lookup: PlayerLookup)
    requires forall h :: h in gs ==> h in GroupOrder(es, r)
    requires g in gs
    ensures |Bucket(es, r, g)| > 0
    ensures GroupsRows(es, code, r, gs, lookup).Ok? ==>
              var table := GroupTable(GroupKey(code, r, g), Bucket(es, r, g), lookup);
              table.Ok? && forall row :: row in table.value ==> row in GroupsRows(es, code, r, gs, lookup).value
  {
    GroupOrderMembers(es, r, g);
    if GroupsRows(es, code, r, gs, lookup).Ok? {
      var init := gs[..|gs| - 1];
      if g in init {
        GroupsRowsContain(es, code, r, init, g, lookup);
      } else {
        assert g == gs[|gs| - 1];
      }
    }
  }

  /** The rows of round r and group g among rows, in list order. */
  function KeyRows(rows: seq<Row>, r: int, g: int): seq<Row>
  {
    if rows == [] then []
    else
      var row := rows[|rows| - 1];
      KeyRows(rows[..|rows| - 1], r, g) + (if row.round == r && row.group == g then [row] else [])
  }

  lemma {:induction false} KeyRowsAppend(a: seq<Row>, b: seq<Row>, r: int, g: int)
    ensures KeyRows(a + b, r, g) == KeyRows(a, r, g) + KeyRows(b, r, g)
  {
    if b == [] {
      assert a + b == a;
    } else {
      var init := b[..|b| - 1];
      KeyRowsAppend(a, init, r, g);
      assert (a + b)[..|a + b| - 1] == a + init;
    }
  }

  /** Rows that all carry round r and group g are their own KeyRows for
      (r, g), and have none for any other group of any round. */
  lemma {:induction false} KeyRowsOfOneKey(rows: seq<Row>, r: int, g: int, r': int, g': int)
    requires forall t :: 0 <= t < |rows| ==> rows[t].round == r && rows[t].group == g
    ensures KeyRows(rows, r', g') == if r' == r && g' == g then rows else []
  {
    if rows != [] {
      KeyRowsOfOneKey(rows[..|rows| - 1], r, g, r', g');
    }
  }

  /** Rows none of which carries round r' have no KeyRows for it. */
  lemma {:induction false} KeyRowsOtherRound(rows: seq<Row>, r': int, g': int)
    requires forall row :: row in rows ==> row.round != r'
    ensures KeyRows(rows, r', g') == []
  {
    if rows != [] {
      KeyRowsOtherRound(rows[..|rows| - 1], r', g');
    }
  }

  /** rows are the table of round r and group g when that group is listed,
      and empty when it is not. */
  ghost predicate KeyRowsAre(es: seq<Event>, code: string, r: int, g: int, lookup: PlayerLookup,
                             listed: bool, rows: seq<Row>)
  {
    if listed then |Bucket(es, r, g)| > 0 && GroupTable(GroupKey(code, r, g), Bucket(es, r, g), lookup) == Ok(rows)
    else rows == []
  }

  /** Within the rows of round r's groups gs, listed once each, the rows of
      group g are g's table when g is listed and none otherwise. */
  lemma {:induction false} GroupsRowsKey(es: seq<Event>, code: string, r: int, gs: seq<int>, g: int, lookup: PlayerLookup)
    requires forall h :: h in gs ==> h in GroupOrder(es, r)
    requires forall i, j :: 0 <= i < j < |gs| ==> gs[i] != gs[j]
    ensures GroupsRows(es, code, r, gs, lookup).Ok? ==>
              KeyRowsAre(es, code, r, g, lookup, g in gs, KeyRows(GroupsRows(es, code, r, gs, lookup).value, r, g))
  {
    if gs != [] && GroupsRows(es, code, r, gs, lookup).Ok? {
      var init := gs[..|gs| - 1];
      var last := gs[|gs| - 1];
      GroupsRowsLast(es, code, r, gs, lookup);
      GroupsRowsKey(es, code, r, init, g, lookup);
      var before := GroupsRows(es, code, r, init, lookup).value;
      var table := GroupTable(GroupKey(code, r, last), Bucket(es, r, last), lookup).value;
      KeyRowsAppend(before, table, r, g);
      KeyRowsOfOneKey(table, r, last, r, g);
      DistinctLast(gs);
      if g == last {
        assert KeyRows(before, r, g) == [];
        assert KeyRows(before + table, r, g) == table;
      } else {
        assert KeyRows(before + table, r, g) == KeyRows(before, r, g);
      }
    }
  }

  /** The rows of groups gs are the rows of all but the last, then the last
      group's table, whose rows all carry round r and that group. */
  lemma GroupsRowsLast(es: seq<Event>, code: string, r: int, gs: seq<int>, lookup: PlayerLookup)
    requires forall h :: h in gs ==> h in GroupOrder(es, r)
    requires gs != [] && GroupsRows(es, code, r, gs, lookup).Ok?
    ensures var last := gs[|gs| - 1];
            && GroupsRows(es, code, r, gs[..|gs| - 1], lookup).Ok?
            && |Bucket(es, r, last)| > 0
            && var table := GroupTable(GroupKey(code, r, last), Bucket(es, r, last), lookup);
               && table.Ok?
               && GroupsRows(es, code, r, gs, lookup).value == GroupsRows(es, code, r, gs[..|gs| - 1], lookup).value + table.value
               && forall t :: 0 <= t < |table.value| ==> table.value[t].round == r && table.value[t].group == last
  {
    var last := gs[|gs| - 1];
    GroupOrderMembers(es, r, last);
    GroupTableShape(GroupKey(code, r, last), Bucket(es, r, last), lookup);
  }

  /** The last element of a sequence without repeats is not among the others. */
  lemma DistinctLast(s: seq<int>)
    requires s != [] && forall i, j :: 0 <= i < j < |s| ==> s[i] != s[j]
    ensures s[|s| - 1] !in s[..|s| - 1]
  {
    var init := s[..|s| - 1];
    forall i | 0 <= i < |init| ensures init[i] != s[|s| - 1] { assert s[i] == init[i]; }
  }

  /** Within the rows of the rounds rs, listed once each, the rows of round
      r and group g are that group's table when both are listed and none
      otherwise. */
  lemma {:induction false} RoundsRowsKey(es: seq<Event>, code: string, rs: seq<int>, r: int, g: int, lookup: PlayerLookup)
    requires forall i, j :: 0 <= i < j < |rs| ==> rs[i] != rs[j]
    ensures RoundsRows(es, code, rs, lookup).Ok? ==>
              KeyRowsAre(es, code, r, g, lookup, r in rs && g in GroupOrder(es, r), KeyRows(RoundsRows(es, code, rs, lookup).value, r, g))
  {
    if rs != [] && RoundsRows(es, code, rs, lookup).Ok? {
      var init := rs[..|rs| - 1];
      var last := rs[|rs| - 1];
      RoundsRowsLast(es, code, rs, lookup);
      RoundsRowsKey(es, code, init, r, g, lookup);
      var before := RoundsRows(es, code, init, lookup).value;
      var gs := GroupOrder(es, last);
      var after := GroupsRows(es, code, last, gs, lookup).value;
      KeyRowsAppend(before, after, r, g);
      DistinctLast(rs);
      if last == r {
        OrdersDistinct(es, r);
        GroupsRowsKey(es, code, r, gs, g, lookup);
        assert KeyRows(before, r, g) == [];
        assert KeyRows(before + after, r, g) == KeyRows(after, r, g);
      } else {
        GroupsRowsFrom(es, code, last, gs, lookup);
        KeyRowsOtherRound(after, r, g);
        assert KeyRows(before + after, r, g) == KeyRows(before, r, g);
      }
    }
  }

  /** The rows of rounds rs are the rows of all but the last, then the last
      round's rows. */
  lemma RoundsRowsLast(es: seq<Event>, code: string, rs: seq<int>, lookup: PlayerLookup)
    requires rs != [] && RoundsRows(es, code, rs, lookup).Ok?
    ensures var last := rs[|rs| - 1];
            && RoundsRows(es, code, rs[..|rs| - 1], lookup).Ok?
            && GroupsRows(es, code, last, GroupOrder(es, last), lookup).Ok?
            && RoundsRows(es, code, rs, lookup).value ==
               RoundsRows(es, code, rs[..|rs| - 1], lookup).value + GroupsRows(es, code, last, GroupOrder(es, last), lookup).value
  {
  }

  /** The rows the export holds for one round and group: exactly that
      group's table, in order (WholeSeconds of its span many, ticks 0, 1, ...)
      when the round and group occur in the events, and none otherwise. */
  lemma ExportKeyRows(es: seq<Event>, lookup: PlayerLookup, r: int, g: int)
    ensures r in RoundOrder(es) && g in GroupOrder(es, r) ==> |Bucket(es, r, g)| > 0
    ensures OutputTable(es, lookup).Ok? ==>
              var rows := KeyRows(OutputTable(es, lookup).value.1, r, g);
              (r in RoundOrder(es) && g in GroupOrder(es, r) ==>
                 && GroupTable(GroupKey(es[0].session, r, g), Bucket(es, r, g), lookup) == Ok(rows)
                 && |rows| == WholeSeconds(MaxStamp(Bucket(es, r, g)) - MinStamp(Bucket(es, r, g)))
                 && forall t :: 0 <= t < |rows| ==> rows[t].tick == t) &&
              (!(r in RoundOrder(es) && g in GroupOrder(es, r)) ==> rows == [])
  {
    GroupOrderMembers(es, r, g);
    if OutputTable(es, lookup).Ok? {
      OrdersDistinct(es, r);
      RoundsRowsKey(es, es[0].session, RoundOrder(es), r, g, lookup);
      if r in RoundOrder(es) && g in GroupOrder(es, r) {
        GroupTableShape(GroupKey(es[0].session, r, g), Bucket(es, r, g), lookup);
      }
    }
  }

  /** Every exported row is a row of its own round and group's table. */
  lemma ExportedRowInItsTable(es: seq<Event>, lookup: PlayerLookup, row: Row)
    ensures OutputTable(es, lookup).Ok? && row in OutputTable(es, lookup).value.1 ==>
              && row.round in RoundOrder(es) && row.group in GroupOrder(es, row.round)
              && |Bucket(es, row.round, row.group)| > 0
              && var table := GroupTable(GroupKey(es[0].session, row.round, row.group), Bucket(es, row.round, row.group), lookup);
                 table.Ok? && row in table.value
  {
    if OutputTable(es, lookup).Ok? && row in OutputTable(es, lookup).value.1 {
      var rows := OutputTable(es, lookup).value.1;
      ExportedRows(es, lookup);
      ExportKeyRows(es, lookup, row.round, row.group);
      KeyRowsMembers(rows, row.round, row.group, row);
    }
  }

  /** KeyRows keeps exactly the rows carrying the round and group. */
  lemma {:induction false} KeyRowsMembers(rows: seq<Row>, r: int, g: int, x: Row)
    ensures x in KeyRows(rows, r, g) <==> x in rows && x.round == r && x.group == g
  {
    if rows != [] {
      KeyRowsMembers(rows[..|rows| - 1], r, g, x);
      assert rows == rows[..|rows| - 1] + [rows[|rows| - 1]];
    }
  }

  /** The export of events that all belong to one round and group is the
      header and that group's table. */
  lemma OneGroupExport(es: seq<Event>, lookup: PlayerLookup, r: int, g: int, rows: seq<Row>)
    requires |es| > 0
    requires forall i :: 0 <= i < |es| ==> es[i].round == r && es[i].group == g
    requires GroupTable(GroupKey(es[0].session, r, g), es, lookup) == Ok(rows)
    ensures OutputTable(es, lookup) == Ok((HEADER, rows))
  {
    SingleGroup(es, r, g);
    OneBucketExport(es, lookup, r, g, rows);
  }

  /** The same, once the grouping is known to give one round with one group. */
  lemma OneBucketExport(es: seq<Event>, lookup: PlayerLookup, r: int, g: int, rows: seq<Row>)
    requires |es| > 0 && RoundOrder(es) == [r] && GroupOrder(es, r) == [g]
    requires |Bucket(es, r, g)| > 0
    requires GroupTable(GroupKey(es[0].session, r, g), Bucket(es, r, g), lookup) == Ok(rows)
    ensures OutputTable(es, lookup) == Ok((HEADER, rows))
  {
    var code := es[0].session;
    RoundsRowsOne(es, code, r, lookup);
    GroupsRowsOne(es, code, r, g, lookup);
  }

  /** The rows of a single group are that group's table. */
  lemma GroupsRowsOne(es: seq<Event>, code: string, r: int, g: int, lookup: PlayerLookup)
    requires g in GroupOrder(es, r)
    ensures |Bucket(es, r, g)| > 0
    ensures GroupsRows(es, code, r, [g], lookup) == GroupTable(GroupKey(code, r, g), Bucket(es, r, g), lookup)
  {
    GroupOrderMembers(es, r, g);
    assert [g][..0] == [];
    var table := GroupTable(GroupKey(code, r, g), Bucket(es, r, g), lookup);
    if table.Ok? {
      assert [] + table.value == table.value;
    }
  }

  /** The rows of a single round are the rows of its groups. */
  lemma RoundsRowsOne(es: seq<Event>, code: string, r: int, lookup: PlayerLookup)
    ensures RoundsRows(es, code, [r], lookup) == GroupsRows(es, code, r, GroupOrder(es, r), lookup)
  {
    assert [r][..0] == [];
    var rows := GroupsRows(es, code, r, GroupOrder(es, r), lookup);
    if rows.Ok? {
      assert [] + rows.value == rows.value;
    }
  }

  /** Events that all belong to one round and group form one bucket. */
  lemma {:induction false} SingleGroup(es: seq<Event>, r: int, g: int)
    requires |es| > 0
    requires forall i :: 0 <= i < |es| ==> es[i].round == r && es[i].group == g
    ensures RoundOrder(es) == [r] && GroupOrder(es, r) == [g] && Bucket(es, r, g) == es
  {
    var init := es[..|es| - 1];
    if init != [] {
      SingleGroup(init, r, g);
    }
    assert es == init + [es[|es| - 1]];
  }

  lemma {:induction false} RoundsRowsFrom(es: seq<Event>, code: string, rs: seq<int>, lookup: PlayerLookup)
    requires RoundsRows(es, code, rs, lookup).Ok?
    ensures forall row :: row in RoundsRows(es, code, rs, lookup).value ==>
              row.session == code && row.round in rs && row.group in GroupOrder(es, row.round)
  {
    if rs != [] {
      var init := rs[..|rs| - 1];
      var r := rs[|rs| - 1];
      RoundsRowsFrom(es, code, init, lookup);
      GroupsRowsFrom(es, code, r, GroupOrder(es, r), lookup);
    }
  }

  lemma {:induction false} GroupsRowsFrom(es: seq<Event>, code: string, r: int, gs: seq<int>, lookup: PlayerLookup)
    requires forall g :: g in gs ==> g in GroupOrder(es, r)
    ensures GroupsRows(es, code, r, gs, lookup).Ok? ==>
              forall row :: row in GroupsRows(es, code, r, gs, lookup).value ==>
                row.session == code && row.round == r && row.group in gs
  {
    if gs != [] && GroupsRows(es, code, r, gs, lookup).Ok? {
      var init := gs[..|gs| - 1];
      var g := gs[|gs| - 1];
      GroupsRowsFrom(es, code, r, init, lookup);
      GroupOrderMembers(es, r, g);
      var key := GroupKey(code, r, g);
      GroupTableShape(key, Bucket(es, r, g), lookup);
      var rows := GroupTable(key, Bucket(es, r, g), lookup).value;
      forall row | row in rows
        ensures row.session == code && row.round == r && row.group == g
      {
        var t :| 0 <= t < |rows| && rows[t] == row;
      }
    }
  }

  /** A failing group makes the rest of its round fail the same way. */
  lemma {:induction false} GroupsRowsErrSticks(es: seq<Event>, code: string, r: int, gs: seq<int>, k: nat, lookup: PlayerLookup)
    requires forall g :: g in gs ==> g in GroupOrder(es, r)
    requires k <= |gs| && GroupsRows(es, code, r, gs[..k], lookup).Err?
    ensures GroupsRows(es, code, r, gs, lookup) == GroupsRows(es, code, r, gs[..k], lookup)
    decreases |gs| - k
  {
    if k < |gs| {
      assert gs[..k + 1][..k] == gs[..k];
      GroupsRowsErrSticks(es, code, r, gs, k + 1, lookup);
    } else {
      assert gs[..k] == gs;
    }
  }

  /** A failing round makes the whole export fail the same way. */
  lemma {:induction false} RoundsRowsErrSticks(es: seq<Event>, code: string, rs: seq<int>, k: nat, lookup: PlayerLookup)
    requires k <= |rs| && RoundsRows(es, code, rs[..k], lookup).Err?
    ensures RoundsRows(es, code, rs, lookup) == RoundsRows(es, code, rs[..k], lookup)
    decreases |rs| - k
  {
    if k < |rs| {
      assert rs[..k + 1][..k] == rs[..k];
      RoundsRowsErrSticks(es, code, rs, k + 1, lookup);
    } else {
      assert rs[..k] == rs;
    }
  }

  /** The grouping pass's dictionaries after the events s: the rounds in
      order, each round's groups in order, each group's events. */
  ghost predicate Grouped(s: seq<Event>, rounds: seq<int>, groupsOf: map<int, seq<int>>,
                          buckets: map<(int, int), seq<Event>>)
  {
    && rounds == RoundOrder(s)
    && (forall x :: x in groupsOf <==> x in rounds)
    && (forall x :: GroupOrder(s, x) == if x in groupsOf then groupsOf[x] else [])
    && (forall x, y :: Bucket(s, x, y) == if (x, y) in buckets then buckets[(x, y)] else [])
  }

  /** One more event updates the dictionaries as the grouping pass does:
      a new round is appended to the rounds, a new group to its round's
      groups, and the event to its group's list. */
  lemma GroupedStep(s: seq<Event>, e: Event, rounds: seq<int>, groupsOf: map<int, seq<int>>,
                    buckets: map<(int, int), seq<Event>>, rounds': seq<int>, groupsOf': map<int, seq<int>>,
                    buckets': map<(int, int), seq<Event>>)
    requires Grouped(s, rounds, groupsOf, buckets)
    requires rounds' == if e.round in groupsOf then rounds else rounds + [e.round]
    requires var groups := if e.round in groupsOf then groupsOf[e.round] else [];
             groupsOf' == groupsOf[e.round := if e.group in groups then groups else groups + [e.group]]
    requires var bucket := if (e.round, e.group) in buckets then buckets[(e.round, e.group)] else [];
             buckets' == buckets[(e.round, e.group) := bucket + [e]]
    ensures Grouped(s + [e], rounds', groupsOf', buckets')
  {
    RoundOrderSnoc(s, e);
    assert e.round in groupsOf <==> e.round in rounds;
    forall x
      ensures x in groupsOf' <==> x in rounds'
    {
      assert x in groupsOf <==> x in rounds;
    }
    forall x
      ensures GroupOrder(s + [e], x) == if x in groupsOf' then groupsOf'[x] else []
    {
      GroupOrderSnoc(s, e, x);
    }
    forall x, y
      ensures Bucket(s + [e], x, y) == if (x, y) in buckets' then buckets'[(x, y)] else []
    {
      BucketSnoc(s, e, x, y);
    }
  }

  lemma RoundOrderSnoc(s: seq<Event>, e: Event)
    ensures RoundOrder(s + [e]) == if e.round in RoundOrder(s) then RoundOrder(s) else RoundOrder(s) + [e.round]
  {
    assert (s + [e])[..|s|] == s;
  }

  lemma GroupOrderSnoc(s: seq<Event>, e: Event, r: int)
    ensures GroupOrder(s + [e], r) ==
              if e.round == r && e.group !in GroupOrder(s, r) then GroupOrder(s, r) + [e.group] else GroupOrder(s, r)
  {
    assert (s + [e])[..|s|] == s;
  }

  lemma BucketSnoc(s: seq<Event>, e: Event, r: int, g: int)
    ensures Bucket(s + [e], r, g) == Bucket(s, r, g) + (if e.round == r && e.group == g then [e] else [])
  {
    assert (s + [e])[..|s|] == s;
  }

  /** The events before index i + 1 are those before i and then event i. */
  lemma TakeOneMore(es: seq<Event>, i: nat)
    requires i < |es|
    ensures es[..i + 1] == es[..i] + [es[i]]
  {
  }

  /** The grouping pass: a dictionary of rounds, each a dictionary of
      groups, each the list of its events; the key orders are kept beside
      the dictionaries, as the dictionaries of views.py keep insertion order. */
  method GroupByRoundThenGroup(sessionEvents: seq<Event>)
    returns (rounds: seq<int>, groupsOf: map<int, seq<int>>, buckets: map<(int, int), seq<Event>>)
    ensures rounds == RoundOrder(sessionEvents)
    ensures forall x :: x in groupsOf <==> x in rounds
    ensures forall x :: GroupOrder(sessionEvents, x) == if x in groupsOf then groupsOf[x] else []
    ensures forall x, y :: Bucket(sessionEvents, x, y) == if (x, y) in buckets then buckets[(x, y)] else []
  {
    rounds, groupsOf, buckets := [], map[], map[];
    for i := 0 to |sessionEvents|
      invariant Grouped(sessionEvents[..i], rounds, groupsOf, buckets)
    {
      var e := sessionEvents[i];
      ghost var rounds0, groupsOf0, buckets0 := rounds, groupsOf, buckets;
      var groups := if e.round in groupsOf then groupsOf[e.round] else [];
      var bucket := if (e.round, e.group) in buckets then buckets[(e.round, e.group)] else [];
      if e.round !in groupsOf {
        rounds := rounds + [e.round];
      }
      if e.group !in groups {
        groups := groups + [e.group];
      }
      groupsOf := groupsOf[e.round := groups];
      buckets := buckets[(e.round, e.group) := bucket + [e]];
      GroupedStep(sessionEvents[..i], e, rounds0, groupsOf0, buckets0, rounds, groupsOf, buckets);
      TakeOneMore(sessionEvents, i);
    }
    assert sessionEvents[..|sessionEvents|] == sessionEvents;
  }

  /** One more group of a round. */
  lemma GroupsRowsStep(es: seq<Event>, code: string, r: int, gs: seq<int>, k: nat, lookup: PlayerLookup)
    requires forall g :: g in gs ==> g in GroupOrder(es, r)
    requires k < |gs| && GroupsRows(es, code, r, gs[..k], lookup).Ok?
    ensures |Bucket(es, r, gs[k])| > 0
    ensures GroupsRows(es, code, r, gs[..k + 1], lookup) ==
              match GroupTable(GroupKey(code, r, gs[k]), Bucket(es, r, gs[k]), lookup)
              case Err(e) => Err(e)
              case Ok(rows) => Ok(GroupsRows(es, code, r, gs[..k], lookup).value + rows)
  {
    GroupOrderMembers(es, r, gs[k]);
    assert gs[..k + 1][..k] == gs[..k];
  }

  /** One more round. */
  lemma RoundsRowsStep(es: seq<Event>, code: string, rs: seq<int>, j: nat, lookup: PlayerLookup)
    requires j < |rs| && RoundsRows(es, code, rs[..j], lookup).Ok?
    ensures RoundsRows(es, code, rs[..j + 1], lookup) ==
              match GroupsRows(es, code, rs[j], GroupOrder(es, rs[j]), lookup)
              case Err(e) => Err(e)
              case Ok(rows) => Ok(RoundsRows(es, code, rs[..j], lookup).value + rows)
  {
    assert rs[..j + 1][..j] == rs[..j];
  }

  /** The inner loop of the export: the rows of the groups of one round. */
  method RoundRows(sessionEvents: seq<Event>, code: string, round: int, groups: seq<int>,
                   buckets: map<(int, int), seq<Event>>, lookup: PlayerLookup)
    returns (r: Result<seq<Row>, ExportError>)
    requires groups == GroupOrder(sessionEvents, round)
    requires forall g :: g in groups ==> (round, g) in buckets && buckets[(round, g)] == Bucket(sessionEvents, round, g)
    ensures r == GroupsRows(sessionEvents, code, round, groups, lookup)
  {
    var rows: seq<Row> := [];
    for k := 0 to |groups|
      invariant GroupsRows(sessionEvents, code, round, groups[..k], lookup) == Ok(rows)
    {
      var group := groups[k];
      GroupsRowsStep(sessionEvents, code, round, groups, k, lookup);
      var groupRows := GroupRows(GroupKey(code, round, group), buckets[(round, group)], lookup);
      if groupRows.Err? {
        GroupsRowsErrSticks(sessionEvents, code, round, groups, k + 1, lookup);
        assert groups[..|groups|] == groups;
        return Err(groupRows.error);
      }
      rows := rows + groupRows.value;
    }
    assert groups[..|groups|] == groups;
    return Ok(rows);
  }

  /** What the grouping pass gives for its rounds: each round's groups in
      order, each with its bucket. */
  lemma GroupedRounds(es: seq<Event>, rounds: seq<int>, groupsOf: map<int, seq<int>>,
                      buckets: map<(int, int), seq<Event>>)
    requires Grouped(es, rounds, groupsOf, buckets)
    ensures forall j :: 0 <= j < |rounds| ==> RoundBuckets(es, rounds[j], groupsOf, buckets)
  {
    forall j | 0 <= j < |rounds|
      ensures RoundBuckets(es, rounds[j], groupsOf, buckets)
    {
      var round := rounds[j];
      forall g | g in groupsOf[round]
        ensures (round, g) in buckets && buckets[(round, g)] == Bucket(es, round, g)
      {
        GroupOrderMembers(es, round, g);
      }
    }
  }

  /** The grouping pass's result for one round: its groups in order, each
      with its bucket. */
  ghost predicate RoundBuckets(es: seq<Event>, round: int, groupsOf: map<int, seq<int>>,
                               buckets: map<(int, int), seq<Event>>)
  {
    && round in groupsOf && groupsOf[round] == GroupOrder(es, round)
    && forall g :: g in groupsOf[round] ==> (round, g) in buckets && buckets[(round, g)] == Bucket(es, round, g)
  }

  /** The outer loop of the export: the rows of every round in turn. */
  method AllRounds(sessionEvents: seq<Event>, code: string, rounds: seq<int>, groupsOf: map<int, seq<int>>,
                   buckets: map<(int, int), seq<Event>>, lookup: PlayerLookup)
    returns (r: Result<seq<Row>, ExportError>)
    requires forall j :: 0 <= j < |rounds| ==> RoundBuckets(sessionEvents, rounds[j], groupsOf, buckets)
    ensures r == RoundsRows(sessionEvents, code, rounds, lookup)
  {
    var rows: seq<Row> := [];
    for j := 0 to |rounds|
      invariant RoundsRows(sessionEvents, code, rounds[..j], lookup) == Ok(rows)
    {
      var round := rounds[j];
      assert RoundBuckets(sessionEvents, round, groupsOf, buckets);
      var roundRows := RoundRows(sessionEvents, code, round, groupsOf[round], buckets, lookup);
      RoundsRowsStep(sessionEvents, code, rounds, j, lookup);
      if roundRows.Err? {
        RoundsRowsErrSticks(sessionEvents, code, rounds, j + 1, lookup);
        assert rounds[..|rounds|] == rounds;
        return Err(roundRows.error);
      }
      rows := rows + roundRows.value;
    }
    assert rounds[..|rounds|] == rounds;
    return Ok(rows);
  }

  /** The export, as views.py builds it: a grouping pass over the
      events, then the rows of every group of every round. */
  method GetOutputTable(sessionEvents: seq<Event>, lookup: PlayerLookup)
    returns (r: Result<(seq<string>, seq<Row>), ExportError>)
    ensures r == OutputTable(sessionEvents, lookup)
  {
    var rounds, groupsOf, buckets := GroupByRoundThenGroup(sessionEvents);
    if |sessionEvents| == 0 {
      return Err(NoEvents);
    }
    var code := sessionEvents[0].session;
    GroupedRounds(sessionEvents, rounds, groupsOf, buckets);
    var rows := AllRounds(sessionEvents, code, rounds, groupsOf, buckets, lookup);
    if rows.Err? {
      return Err(rows.error);
    }
    return Ok((HEADER, rows.value));
  }
}
