# stochastic-bimatrix: the decision tick and the results export

This project models the experiment logic of `views.py` in the
stochastic-bimatrix oTree app, a two-player game whose payoff matrix switches
at random while play goes on. It covers three pieces.

- **Treatment lookup** (`treatment`, `UndefinedTreatmentError`). A session's
  config names a treatment, and the treatment table holds a payoff grid and a
  4-row transition-probability table for it
  (module `Treatments`, file `treatments.dfy`).
- **The matrix-transition tick** (`Decision.tick`). From the two players'
  decisions q1 and q2 and the four coefficients of the active matrix, the tick
  computes the switch probability `(p11 q1 q2 + p12 q1 (1-q2) + p21 (1-q1) q2 +
  p22 (1-q1)(1-q2)) * 0.034064`. When the uniform draw falls below it, the tick
  flips the matrix between 0 and 1, stores one `transitions` event and
  broadcasts the new matrix on `current_matrix`. The page is the class
  `Transitions.Decision`, whose fields are the matrix, the stored events and
  the broadcasts; `Decision.Tick` is proved against the pure `TickSpec`, and
  `Ticks` runs several ticks in a row (file `transitions.dfy`).
- **The results export** (`get_output_table`). Events are grouped by round and
  then by group, both in order of first appearance. Each group is then walked
  in whole-second windows, from its earliest timestamp up to the number of
  whole seconds in its span. Each window pops the events stamped no later than
  its end off the front of the group's list, keeps those on the `decisions`
  channel that carry a value, and splits them by the sender's position in the
  group (1 or 2). It then emits one row holding each player's mean, where a
  player with nothing in a window keeps the previous window's mean.
  - The loops are methods: `GroupByRoundThenGroup`, `AllRounds`, `RoundRows`,
    `GroupRows`, `WalkWindows`, `AdvanceWindow`, `NextWindow`, `PopWindow` and
    `SplitByPosition`.
  - Each method is proved equal to a recursive specification function:
    `RoundOrder`, `GroupOrder`, `Bucket`, `RoundsRows`, `GroupsRows`,
    `GroupTable`, `Windows`, `Step`, `PopCount`, `Decisions` and `Split`.
  - The lemmas state what the export promises about those functions (files
    `windows.dfy` and `export.dfy`).
  - `scenarios.dfy` works one group's windowing through concretely: two
    players with one decision each per second over a three-second span. It
    then takes that group, the only one in its round, through the whole
    export: grouping, header and session code.

Modelling choices:

- Timestamps are integer microseconds.
- A time difference's `.seconds` is modelled as its whole seconds modulo one
  day (`Windows.WholeSeconds`), which is what Python computes. For spans under
  a day, `Windows.GroupTableShape` shows this is the plain number of whole
  seconds.
- NaN ("no mean yet") is `None`.
- The random draw is a parameter of the tick.
- The event store and the channel are sequences that the tick appends to.
- The player lookup `Player.objects.get(...).id_in_group` is a function
  parameter (`Windows.PlayerLookup`).
- Failures are `Result` values:
  - a missing `treatment` key is `UndefinedTreatment`;
  - a treatment name that is not in the table is `UnknownTreatment`, the
    source's plain `KeyError`;
  - a transition-probability table that does not give four coefficients is
    `MalformedTransitionProbabilities`. This covers both of the source's
    errors at views.py:64: the `ValueError` when the table does not unpack
    into four rows, and the `IndexError` when a row has no entry for the
    active matrix;
  - a position other than 1 or 2 is `InvalidIdInGroup`, the source's
    `ValueError`;
  - an empty event list is `NoEvents`, the `IndexError` that
    `session_events[0]` raises.

The export does not require events to be sorted by time. It pops in list
order, as the code does. `Windows.SortedWindows` states what time order buys:
window t then takes exactly the events stamped after minT + (t - 1) seconds and
no later than minT + t seconds. Window 0 takes only those stamped exactly
minT. The events stamped after the end of the last window are never popped:
the loop test reads the first of them and stops. They include the latest
event itself, which `Windows.WindowsKeepLatest` shows is always still in the
list, so the pop loop never indexes an empty list.

## Model

| member | source | states |
|---|---|---|
| Treatments.LookupTreatment | views.py:20-27 | The error is UndefinedTreatment exactly when the config has no 'treatment' key. The lookup succeeds exactly when the key is present and names an entry of the table, and then returns that entry. A name missing from the table gives UnknownTreatment(name). |
| Treatments.CoefficientsFor | views.py:64 | Succeeds exactly when the table has four rows, each long enough to hold the active matrix's entry. The coefficients are then entry `matrix` of rows 0..3, in the order p11, p12, p21, p22. Otherwise the error is MalformedTransitionProbabilities. |
| Treatments.WeightsSum | views.py:68-71 | The four weights q1q2, q1(1-q2), (1-q1)q2, (1-q1)(1-q2) sum to 1 for all decisions. |
| Treatments.WeightsConvex | views.py:68-71 | For decisions in [0, 1] the four weights are nonnegative and sum to 1. |
| Treatments.SwitchProbability | views.py:67-71 | Specification function (the Pswitch formula); its properties are in WeightsSum, WeightsConvex, SwitchProbabilityIsWeighted, SwitchProbabilityBetween, SwitchProbabilityBounds, SwitchProbabilityUniform, SwitchProbabilityIsProbability and SwitchProbabilityExample. |
| Treatments.SwitchProbabilityIsWeighted | views.py:67-71 | The switch probability is the weighted sum of the four coefficients, times PMAX. |
| Treatments.SwitchProbabilityBetween | views.py:67-71 | For decisions in [0, 1], common bounds lo and hi on the coefficients give PMAX*lo <= Pswitch <= PMAX*hi. |
| Treatments.SwitchProbabilityBounds | views.py:67-71 | For decisions in [0, 1], Pswitch lies between PMAX times the smallest coefficient and PMAX times the largest. |
| Treatments.SwitchProbabilityUniform | views.py:67-71 | With all four coefficients equal to p, Pswitch = p*PMAX for any decisions, so all-zero coefficients never switch. |
| Treatments.SwitchProbabilityIsProbability | views.py:67-71 | With coefficients and decisions in [0, 1], 0 <= Pswitch <= PMAX < 1. |
| Treatments.SwitchProbabilityExample | views.py:65-71 | Unit coefficients at q1 = q2 = 0.5 give exactly 0.034064. |
| Transitions.Flip | views.py:76-88 | Specification function (the flip branch of one tick); its properties are in TickFlipsIffBelow and TickStepHistory. |
| Transitions.TickSpec | views.py:62-88 | Specification function (one tick on the page's state); its properties are in TickFlipsIffBelow, TickStepHistory and Decision.Tick. |
| Transitions.Ticks | views.py:62-88 | Specification function (a run of ticks, one per emitter interval); its properties are in TicksHistory and TicksLastStep. |
| Transitions.Toggle | views.py:77 | The toggled matrix differs from the old one; its type keeps it in {0, 1}. |
| Transitions.ToggleTwice | views.py:77 | Toggling twice restores the matrix. |
| Transitions.TickFlipsIffBelow | views.py:62-88 | A tick fails exactly when there are not two decisions, or the treatment or its coefficients are missing. A successful tick flips iff the draw is below Pswitch. A flip appends exactly one `transitions` event and one `current_matrix` broadcast, both carrying the new matrix. Without a flip the state is unchanged. |
| Transitions.TickStepHistory | views.py:76-88 | A successful tick either keeps the state, or toggles the matrix and appends one matching event and one matching broadcast. |
| Transitions.TicksLastStep | views.py:76-88 | The last tick of a successful run relates the run's state to the state before that tick in the same way. |
| Transitions.HistoryAppend | views.py:79-88 | Appending one flip (toggled matrix, one event, one broadcast) keeps a history extension valid and adds one event. |
| Transitions.TicksHistory | views.py:62-88 | A run of ticks only extends the history, by at most one event per tick. Earlier events and broadcasts are untouched. Each new event is on `transitions` and has one `current_matrix` broadcast with the same value. The newest event names the current matrix. The matrix is back where it started exactly when an even number of flips happened. |
| Transitions.Decision.constructor | views.py:46-48 | A page starts on matrix 0 with no events and no broadcasts. |
| Transitions.Decision.Tick | views.py:62-88 | The new state is TickSpec of the old one, and an error leaves the state unchanged. The result says whether the matrix flipped, which happens iff the draw is below Pswitch. A flip toggles the matrix and adds one event. The tick keeps the page's history valid: events alternate 1, 0, 1, ..., each is broadcast once with the same value, and the matrix is the parity of the event count. |
| Windows.IsDecision | views.py:127 | Specification predicate (the filter of the pop loop); its properties are in Decisions, DecisionsMembers and PopWindow. |
| Windows.Position | views.py:132-136 | Specification function (the sender's `id_in_group` through the player lookup); its properties are in SplitSpec, StepRow and SplitByPosition. |
| Windows.ArgMin | views.py:118 | An index whose timestamp is no later than any event's: `minT`. |
| Windows.ArgMax | views.py:119 | An index whose timestamp is no earlier than any event's: `maxT`. |
| Windows.MinStamp | views.py:118 | Specification function (minT); its properties are in ArgMin, StampsOfOrdered, GroupTableShape and GroupRows. |
| Windows.MaxStamp | views.py:119 | Specification function (maxT); its properties are in ArgMax, StampsOfOrdered, WindowsKeepLatest, GroupTableShape and GroupRows. |
| Windows.StampsOfOrdered | views.py:118-119 | In a time-ordered list, minT is the first event's stamp and maxT the last event's. |
| Windows.WholeSeconds | views.py:122 | Specification function (`.seconds` of a time difference); its properties are in WholeSecondsFit, WholeSecondsWithinDay and GroupTableShape. |
| Windows.WholeSecondsFit | views.py:122 | The windows fit within the span: WholeSeconds(d) seconds is at most d. |
| Windows.WholeSecondsWithinDay | views.py:122 | For spans under a day, the window count is the span's whole seconds, rounded down. |
| Windows.WindowInsideSpan | views.py:122-123 | Every window's end `currT` lies strictly before maxT. |
| Windows.PopCount | views.py:125-126 | The pop loop takes at most the whole list and stops at an event stamped after the window's end. |
| Windows.PopCountPrefix | views.py:125-126 | Every popped event is stamped no later than the window's end. |
| Windows.PopCountIs | views.py:125-126 | The pop count is the unique length of a prefix whose events are all stamped no later than the window's end and that stops at a later event. |
| Windows.Decisions | views.py:127-128 | The kept events are decision events carrying a value, and there are no more of them than popped events. |
| Windows.DecisionsMembers | views.py:127-128 | An event is kept iff it was popped, is on the `decisions` channel and has a value. |
| Windows.Split | views.py:129-141 | Specification function (the split loop); its properties are in SplitSpec, SplitErrSticks and SplitByPosition. |
| Windows.SplitSpec | views.py:129-141 | The split succeeds iff every sender is at position 1 or 2, and then yields each player's values in order. On failure, the error names the first sender at another position. |
| Windows.SplitErrSticks | views.py:140-141 | Once a prefix of the window's decisions fails to split, the whole split fails with the same error. |
| Windows.Sum | views.py:143-146 | Specification function (the `sum` of a player's values); its properties are in SumBounds and MeanBounds. |
| Windows.Mean | views.py:142-146 | Specification function (the mean of a non-empty window); its properties are in MeanBounds and SumBounds. |
| Windows.Carry | views.py:142-146 | Specification function (a mean, or the previous one when the player sent nothing); its properties are in StepRow and CarryForward. |
| Windows.SumBounds | views.py:144-146 | Bounds on every value bound the sum by the count times the bound. |
| Windows.MeanBounds | views.py:142-146 | A mean lies between the smallest and the largest value, so means of decisions in [0, 1] stay in [0, 1]. |
| Windows.Step | views.py:123-156 | Specification function (one window); its properties are in StepRow, StepAppendsRow, StepKeepsShape and NextWindow. |
| Windows.Windows | views.py:122-156 | Specification function (the first n windows of a group); its properties are in WindowsShape, WindowsRest, WindowsConsumeFront, WindowsKeepLatest, WindowsErrSticks, WindowsStopAfterEnd, SortedWindows, CarryForward and WalkWindows. |
| Windows.GroupTable | views.py:117-156 | Specification function (the rows of one group); its properties are in GroupTableShape and GroupRows. |
| Windows.StepRow | views.py:123-156 | A window fails iff one of its decisions comes from a position other than 1 or 2. Otherwise it leaves the events after the popped ones and appends the row for its second. In that row each player's mean is the mean of that player's values in the window, or the previous mean when there are none. |
| Windows.StepAppendsRow | views.py:147-154 | A window appends exactly one row, numbered by its tick, carrying the group's key and the new carried means. |
| Windows.StepKeepsShape | views.py:147-156 | One window keeps the rows numbered 0.. in order with the group's key, and keeps the carried means equal to the last row's. |
| Windows.WindowsShape | views.py:120-156 | After n windows there are n rows, with ticks 0..n-1 in order, each carrying the group's key. The carried means are the last row's, or NaN before any row. |
| Windows.CarryForward | views.py:142-154 | Row t's mean for each player is the mean of that player's values in window t. When the player sent none in that window, the row repeats row t - 1's mean. |
| Windows.Rest | views.py:122-126 | Specification function (the events the pops of n windows leave); its properties are in WindowsRest and RestConsumesFront. |
| Windows.WindowsRest | views.py:122-128 | The events left after n successful windows are Rest(ge, minT, n), independent of the split and the lookup. |
| Windows.RestConsumesFront | views.py:122-126 | The pops take events only from the front of the list, each at most once. Every event taken is stamped no later than the end of the last window. |
| Windows.WindowsConsumeFront | views.py:122-126 | The same for the events a run of windows leaves. |
| Windows.WindowsKeepLatest | views.py:119-126 | As long as another window is due (minT plus n seconds is at most maxT), the latest event is still among the remaining events, at its shifted index, so the pop loop never reads an empty list. |
| Windows.WindowsErrSticks | views.py:122-141 | Once the first t windows fail, every longer walk fails with that same error. |
| Windows.WindowsStopAfterEnd | views.py:125 | After each window, the first remaining event is stamped after that window's end. |
| Windows.SortedWindows | views.py:122-128 | For time-ordered events, after n windows the consumed events are exactly those stamped no later than the end of window n-1. |
| Windows.GroupTableShape | views.py:118-154 | A group's table has WholeSeconds(maxT - minT) rows, with ticks 0, 1, ... in order, each carrying the group's key. For spans under a day that is (maxT - minT) in whole seconds. |
| Windows.PopWindow | views.py:124-128 | The pop loop leaves the events after PopCount, keeps exactly the decisions among the popped ones, and never empties the list. |
| Windows.SplitByPosition | views.py:129-141 | The split loop computes Split, including its first-invalid-position error. |
| Windows.NextWindow | views.py:123-156 | The body of the per-second loop computes Step. |
| Windows.AdvanceWindow | views.py:122-156 | One more window while a window still ends before maxT computes Windows for tick + 1. |
| Windows.WalkWindows | views.py:122-156 | The per-second loop computes the first n windows. |
| Windows.GroupRows | views.py:117-156 | The rows of one group are GroupTable of its events. |
| Export.RoundOrder | views.py:103-105 | Specification function (the rounds in order of first appearance); its properties are in RoundOrderMembers, OrdersDistinct and GroupByRoundThenGroup. |
| Export.GroupOrder | views.py:103-105 | Specification function (a round's groups in order of first appearance); its properties are in GroupOrderMembers, RoundOrderMembers, OrdersDistinct and GroupByRoundThenGroup. |
| Export.Bucket | views.py:103-105 | Specification function (a group's events in list order); its properties are in BucketMembers, GroupOrderMembers and GroupByRoundThenGroup. |
| Export.GroupsRows | views.py:117-156 | Specification function (the rows of one round's groups); its properties are in GroupsRowsFrom, GroupsRowsStep, GroupsRowsErrSticks and RoundRows. |
| Export.RoundsRows | views.py:116-156 | Specification function (the rows of every round); its properties are in RoundsRowsFrom, RoundsRowsStep, RoundsRowsErrSticks and AllRounds. |
| Export.OutputTable | views.py:102-157 | Specification function (the whole export); its properties are in ExportedRows, ExportKeyRows, ExportedRowInItsTable, GroupRowsInExport and GetOutputTable. |
| Export.GroupOrderMembers | views.py:103-105 | A group is listed for a round iff its bucket of events is not empty. |
| Export.RoundOrderMembers | views.py:103-105 | A round is listed iff some event belongs to it, and then it lists at least one group. |
| Export.BucketMembers | views.py:103-105 | Each event lands in the bucket of its own round and group, and only there. |
| Export.OrdersDistinct | views.py:103-105 | Each round is listed once, and each group once within its round. |
| Export.GroupedStep | views.py:104-105 | One more event updates the dictionaries as the grouping loop does, and keeps them equal to RoundOrder, GroupOrder and Bucket of the events seen so far. |
| Export.GroupByRoundThenGroup | views.py:103-105 | The grouping loop produces the rounds in order of first appearance, each round's groups in that order, and each group's events in list order. |
| Export.GroupedRounds | views.py:116-117 | Every listed round has its groups in order, each with its own bucket. |
| Export.GroupsRowsStep | views.py:117-156 | One more group appends that group's table to the round's rows, or fails with its error. |
| Export.RoundsRowsStep | views.py:116-156 | One more round appends that round's rows, or fails with its error. |
| Export.GroupsRowsErrSticks | views.py:117-141 | When the first k groups of a round fail, the whole round fails with that same error. |
| Export.RoundsRowsErrSticks | views.py:116-141 | When the first k rounds fail, the whole export fails with that same error. |
| Export.RoundRows | views.py:117-156 | The inner loop computes the rows of one round's groups, in order. |
| Export.AllRounds | views.py:116-156 | The outer loop computes the rows of every round, in order. |
| Export.GetOutputTable | views.py:102-157 | The export computes OutputTable. Empty events give NoEvents; otherwise the result is the fixed header with every group's rows. |
| Export.KeyRows | views.py:147-154 | Specification function (the rows of one round and group, in list order); its properties are in KeyRowsAppend, KeyRowsMembers, ExportKeyRows and ExportedRowInItsTable. |
| Export.KeyRowsAppend | views.py:147-154 | The rows of one key in a concatenation are the rows of that key in the first part followed by those in the second. |
| Export.KeyRowsMembers | views.py:147-154 | A row is kept for a key iff it is in the list and carries that round and group. |
| Export.GroupsRowsKey | views.py:117-156 | Within the rows of a round's groups, each listed once, the rows of group g are g's table when g is listed, and none otherwise. |
| Export.RoundsRowsKey | views.py:116-156 | Within the rows of rounds each listed once, the rows of (r, g) are that group's table when both are listed, and none otherwise. |
| Export.ExportKeyRows | views.py:116-157 | In a successful export, the rows that carry round r and group g are exactly that group's table, in order, when the round and group occur in the events. There are WholeSeconds(maxT - minT) of them, with ticks 0, 1, .... When the key does not occur there are none. So no key has extra, repeated or reordered rows. |
| Export.ExportedRowInItsTable | views.py:116-157 | Every exported row belongs to a round and group that occur in the events, and it is a row of that group's table. |
| Export.GroupRowsInExport | views.py:116-157 | Every row of each listed round and group's table, keyed by the first event's session, is in the export. ExportKeyRows states the exact rows of each key. |
| Export.SingleGroup | views.py:103-105 | Events that all belong to one round and group are grouped into that one round, that one group and a bucket holding all of them. |
| Export.OneGroupExport | views.py:102-157 | The export of events from a single round and group is the header followed by that group's table. |
| Export.GroupsRowsFrom | views.py:117-154 | Every row of a round carries the session code, the round, and one of that round's groups. |
| Export.RoundsRowsFrom | views.py:116-154 | Every row carries the session code, one of the given rounds, and a group of that round. |
| Export.ExportedRows | views.py:106-157 | The header is session, round, group, tick, player1, player2. Every row carries the first event's session code and a round and group that occur in the events. |
| Scenarios.WindowStep | views.py:123-154 | A window that starts with one decision from each player at its own end, followed by a later event, records those two values as the means. |
| Scenarios.ThreeWindows | views.py:122-156 | The sample's three windows, one at a time: two decisions per second are consumed, and the last second's events are left unpopped. |
| Scenarios.WholeExport | views.py:102-157 | The whole export of the sample is the fixed header and its three rows, keyed by the first event's session "s". |
| Scenarios.ThreeSeconds | views.py:118-156 | A span of exactly three seconds, with one decision per player per second, gives three rows (ticks 0, 1, 2). Each row holds both players' decisions of its second. |

## Left out

- Page classes and hooks are not modelled: `Introduction`, `DecisionWaitPage`, `Results`, `vars_for_all_templates`, `is_displayed`, the timeouts, `page_sequence`. They only wire pages and templates together.
- `Decision.when_all_players_ready` (views.py:51-60) is left out. Its clock, session variables and event emitter are framework I/O. `Transitions.Ticks` takes the emitter's sequence of ticks as a list of inputs. It stops at the first failing tick, on the assumption that an error raised in the emitter's callback ends the schedule; how the emitter reacts to such an error is not part of this model.
- `random.uniform` is a parameter, the draw, and the debug `print`s (views.py:73-74, 78) are left out.
- The event store (`Event.objects.create`) and the channel push (`consumers.send`) are modelled as the sequences `events` and `broadcasts` that the page appends to. Persistence and delivery are not modelled.
- `Player.objects.get` is modelled as a total function parameter. Its `DoesNotExist` and `MultipleObjectsReturned` failures are not modelled, because the database behind it is not part of this model.
- Arithmetic is on exact reals, and NaN is `None`. IEEE rounding is not modelled.
- The group's decisions, `group_decisions.values()`, arrive as a sequence in the order the page holds them. Unpacking anything but two values is `WrongDecisionCount`.
- `payoff_grid` is carried in `Treatment`, but nothing here reads it.
- A treatment entry without a `transition_probabilities` key, a `KeyError` at views.py:64, is not modelled. Every `Treatment` value carries that field, so this error path does not exist in the model.
- `Decision.initial_decision` is unused: decisions are inputs.
- The missing imports of `defaultdict`, `datetime` and `Player` (views.py:103, 123, 132) are modelled as intended, not as the `NameError` they would raise.
- Datetimes are integer microseconds. Time zones are not modelled.
- Dictionary iteration order is modelled as insertion order, which Python guarantees from version 3.7 on.
- Transitions.Decision.Tick: returns whether the matrix flipped, where the source returns nothing. The flag only reports what the new state already shows.
- Windows.PopWindow: works on a sequence value instead of popping from the dictionary's list in place. The list is not read again after its group's walk, so no aliasing is lost. Its precondition (some event is stamped after the window's end) is the state in which the source's loop avoids an `IndexError`, and `Windows.WindowsKeepLatest` proves the export always calls it in that state.
