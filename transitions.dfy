/** The matrix-transition tick of the decision page (views.py, `Decision.tick`):
    each tick draws a number, and when it falls below the switch probability the
    group's active payoff matrix flips, one transition event is stored and the
    new matrix number is pushed to the group's channel. */
module Transitions {
  import opened Wrappers
  import opened Treatments

  /** A payoff-matrix number; the page only ever holds 0 or 1. */
  type Matrix = m: int | m == 0 || m == 1

  /** Where a tick runs: the session, the subsession's name, the round and the group. */
  datatype Page = Page(session: string, subsession: string, round: int, group: int)

  /** The fields of the event-store record created on a flip. */
  datatype TransitionRecord = TransitionRecord(session: string, subsession: string, round: int,
                                               group: int, channel: string, value: Matrix)

  /** A value pushed to every participant listening on a channel of the group. */
  datatype Broadcast = Broadcast(group: int, channel: string, value: Matrix)

  /** Why a tick was abandoned before it could draw. */
  datatype TickError =
    | WrongDecisionCount(count: nat)  // the group's decisions do not unpack into exactly q1, q2
    | Config(reason: ConfigError)     // the treatment or its coefficients could not be found

  /** What one tick reads and writes: the matrix, the stored transition
      events and the broadcasts sent so far. */
  datatype MatrixState = MatrixState(matrix: Matrix, log: seq<TransitionRecord>, sent: seq<Broadcast>)

  /** One tick's inputs: the group's decisions and the uniform draw. */
  datatype TickInput = TickInput(decisions: seq<real>, draw: real)

  const TRANSITIONS_CHANNEL: string := "transitions"
  const MATRIX_CHANNEL: string := "current_matrix"

  /** The other matrix. */
  function Toggle(m: Matrix): (r: Matrix)
    ensures r != m
  {
    1 - m
  }

  /** The Bernoulli step: below the switch probability the matrix flips,
      and the flip is stored once and broadcast once. */
  function Flip(page: Page, s: MatrixState, pswitch: real, draw: real): MatrixState
  {
    if draw < pswitch then
      var m := Toggle(s.matrix);
      MatrixState(m,
                  s.log + [TransitionRecord(page.session, page.subsession, page.round, page.group, TRANSITIONS_CHANNEL, m)],
                  s.sent + [Broadcast(page.group, MATRIX_CHANNEL, m)])
    else
      s
  }

  /** One whole tick: unpack the two decisions, take the active matrix's
      coefficients from the treatment, compute the switch probability, flip. */
  function TickSpec(page: Page, config: map<string, string>, treatments: map<string, Treatment>,
                    s: MatrixState, input: TickInput): Result<MatrixState, TickError>
  {
    if |input.decisions| != 2 then
      Err(WrongDecisionCount(|input.decisions|))
    else
      match LookupTreatment(config, treatments)
      case Err(e) => Err(Config(e))
      case Ok(t) =>
        match CoefficientsFor(t, s.matrix)
        case Err(e) => Err(Config(e))
        case Ok(c) => Ok(Flip(page, s, SwitchProbability(c, input.decisions[0], input.decisions[1]), input.draw))
  }

  /** A run of ticks, one per input, stopping at the first failing tick. */
  function Ticks(page: Page, config: map<string, string>, treatments: map<string, Treatment>,
                 s: MatrixState, inputs: seq<TickInput>): Result<MatrixState, TickError>
    decreases |inputs|
  {
    if inputs == [] then
      Ok(s)
    else
      match Ticks(page, config, treatments, s, inputs[..|inputs| - 1])
      case Err(e) => Err(e)
      case Ok(s') => TickSpec(page, config, treatments, s', inputs[|inputs| - 1])
  }

  /** Toggling twice restores the matrix. */
  lemma ToggleTwice(m: Matrix)
    ensures Toggle(Toggle(m)) == m
  {
  }

  /** A successful tick flips exactly when the draw is below the switch
      probability of the active matrix's coefficients; a flip appends one
      transition event and one broadcast, both carrying the new matrix, and
      otherwise nothing changes. A failing tick is one whose decisions,
      treatment or coefficients are missing. */
  lemma TickFlipsIffBelow(page: Page, config: map<string, string>, treatments: map<string, Treatment>,
                          s: MatrixState, input: TickInput)
    ensures var r := TickSpec(page, config, treatments, s, input);
            r.Ok? <==> |input.decisions| == 2 && LookupTreatment(config, treatments).Ok? &&
                       CoefficientsFor(LookupTreatment(config, treatments).value, s.matrix).Ok?
    ensures var r := TickSpec(page, config, treatments, s, input);
            r.Ok? ==>
              var c := CoefficientsFor(LookupTreatment(config, treatments).value, s.matrix).value;
              var flipped := input.draw < SwitchProbability(c, input.decisions[0], input.decisions[1]);
              && (r.value.matrix == if flipped then Toggle(s.matrix) else s.matrix)
              && (flipped ==>
                    && r.value.log == s.log + [TransitionRecord(page.session, page.subsession, page.round,
                                                                page.group, TRANSITIONS_CHANNEL, r.value.matrix)]
                    && r.value.sent == s.sent + [Broadcast(page.group, MATRIX_CHANNEL, r.value.matrix)])
              && (!flipped ==> r.value == s)
  {
  }

  /** s' extends the history of s by flips only: at least as many transition
      events, one `current_matrix` broadcast per new event carrying the same matrix, earlier
      history untouched, the newest new event naming the current matrix, and
      the matrix back where it started exactly when an even number of flips
      happened. */
  ghost predicate HistoryExtends(s: MatrixState, s': MatrixState)
  {
    var flips := |s'.log| - |s.log|;
    && |s.log| <= |s'.log|
    && |s'.sent| == |s.sent| + flips
    && s'.log[..|s.log|] == s.log
    && s'.sent[..|s.sent|] == s.sent
    && (forall k :: |s.log| <= k < |s'.log| ==>
          && s'.log[k].channel == TRANSITIONS_CHANNEL
          && s'.sent[k - |s.log| + |s.sent|].channel == MATRIX_CHANNEL
          && s'.sent[k - |s.log| + |s.sent|].value == s'.log[k].value)
    && (flips > 0 ==> s'.log[|s'.log| - 1].value == s'.matrix)
    && (s'.matrix == if flips % 2 == 0 then s.matrix else Toggle(s.matrix))
  }

  /** What a run of ticks does to the history: it only extends it, by at
      most one transition event per tick. */
  lemma {:induction false} TicksHistory(page: Page, config: map<string, string>, treatments: map<string, Treatment>,
                                        s: MatrixState, inputs: seq<TickInput>)
    requires Ticks(page, config, treatments, s, inputs).Ok?
    ensures var s' := Ticks(page, config, treatments, s, inputs).value;
            HistoryExtends(s, s') && |s'.log| <= |s.log| + |inputs|
  {
    if inputs == [] {
      assert s.log[..|s.log|] == s.log && s.sent[..|s.sent|] == s.sent;
    } else {
      var init := inputs[..|inputs| - 1];
      TicksHistory(page, config, treatments, s, init);
      var mid := Ticks(page, config, treatments, s, init).value;
      var s' := Ticks(page, config, treatments, s, inputs).value;
      TicksLastStep(page, config, treatments, s, inputs);
      if s' != mid {
        HistoryAppend(s, mid, s', TransitionRecord(page.session, page.subsession, page.round, page.group,
                                                   TRANSITIONS_CHANNEL, s'.matrix),
                      Broadcast(page.group, MATRIX_CHANNEL, s'.matrix));
      }
    }
  }

  /** The history facts survive one flip appended to them. */
  lemma HistoryAppend(s: MatrixState, mid: MatrixState, s': MatrixState, p: TransitionRecord, g: Broadcast)
    requires HistoryExtends(s, mid)
    requires s'.matrix == Toggle(mid.matrix)
    requires s'.log == mid.log + [p] && p.channel == TRANSITIONS_CHANNEL && p.value == s'.matrix
    requires s'.sent == mid.sent + [g] && g.channel == MATRIX_CHANNEL && g.value == s'.matrix
    ensures HistoryExtends(s, s') && |s'.log| == |mid.log| + 1
  {
    var f := |mid.log| - |s.log|;
    assert s'.log[..|s.log|] == mid.log[..|s.log|];
    assert s'.sent[..|s.sent|] == mid.sent[..|s.sent|];
    forall k | |s.log| <= k < |s'.log|
      ensures && s'.log[k].channel == TRANSITIONS_CHANNEL
              && s'.sent[k - |s.log| + |s.sent|].channel == MATRIX_CHANNEL
              && s'.sent[k - |s.log| + |s.sent|].value == s'.log[k].value
    {
      if k < |mid.log| {
        assert s'.log[k] == mid.log[k];
        assert s'.sent[k - |s.log| + |s.sent|] == mid.sent[k - |s.log| + |s.sent|];
      } else {
        assert s'.log[k] == p;
        assert s'.sent[k - |s.log| + |s.sent|] == g;
      }
    }
    ParityStep(f);
  }

  /** One more flip changes the parity. */
  lemma ParityStep(f: int)
    ensures ((f + 1) % 2 == 0) == (f % 2 != 0)
  {
  }

  /** The last tick of a successful run, as seen by the history. */
  lemma TicksLastStep(page: Page, config: map<string, string>, treatments: map<string, Treatment>,
                      s: MatrixState, inputs: seq<TickInput>)
    requires inputs != [] && Ticks(page, config, treatments, s, inputs).Ok?
    ensures Ticks(page, config, treatments, s, inputs[..|inputs| - 1]).Ok?
    ensures var mid := Ticks(page, config, treatments, s, inputs[..|inputs| - 1]).value;
            var s' := Ticks(page, config, treatments, s, inputs).value;
            || s' == mid
            || (&& s'.matrix == Toggle(mid.matrix)
                && s'.log == mid.log + [TransitionRecord(page.session, page.subsession, page.round, page.group,
                                                         TRANSITIONS_CHANNEL, s'.matrix)]
                && s'.sent == mid.sent + [Broadcast(page.group, MATRIX_CHANNEL, s'.matrix)])
  {
    var mid := Ticks(page, config, treatments, s, inputs[..|inputs| - 1]).value;
    TickStepHistory(page, config, treatments, mid, inputs[|inputs| - 1]);
  }

  /** One successful tick as seen by the history: the state is kept, or the
      matrix is toggled and one matching event and broadcast are appended. */
  lemma TickStepHistory(page: Page, config: map<string, string>, treatments: map<string, Treatment>,
                        s: MatrixState, input: TickInput)
    requires TickSpec(page, config, treatments, s, input).Ok?
    ensures var s' := TickSpec(page, config, treatments, s, input).value;
            || s' == s
            || (&& s'.matrix == Toggle(s.matrix)
                && s'.log == s.log + [TransitionRecord(page.session, page.subsession, page.round, page.group,
                                                       TRANSITIONS_CHANNEL, s'.matrix)]
                && s'.sent == s.sent + [Broadcast(page.group, MATRIX_CHANNEL, s'.matrix)])
  {
  }

  /** The decision page of one group: the active matrix and what its ticks
      have stored and broadcast. */
  class Decision {
    const page: Page
    const config: map<string, string>
    const treatments: map<string, Treatment>
    var currentMatrix: Matrix
    var events: seq<TransitionRecord>
    var broadcasts: seq<Broadcast>

    function State(): MatrixState
      reads this
    {
      MatrixState(currentMatrix, events, broadcasts)
    }

    /** The page's history since it started: its events alternate 1, 0, 1, ...,
        each is broadcast once with the same value, and the matrix is the
        parity of the number of flips. */
    ghost predicate Valid()
      reads this
    {
      && |broadcasts| == |events|
      && currentMatrix == |events| % 2
      && forall k :: 0 <= k < |events| ==>
           events[k].value == (k + 1) % 2 && broadcasts[k].value == events[k].value &&
           events[k].channel == TRANSITIONS_CHANNEL && broadcasts[k].channel == MATRIX_CHANNEL
    }

    /** A page starts on matrix 0 with nothing stored or sent. */
    constructor (page: Page, config: map<string, string>, treatments: map<string, Treatment>)
      ensures Valid()
      ensures this.page == page && this.config == config && this.treatments == treatments
      ensures State() == MatrixState(0, [], [])
    {
      this.page := page;
      this.config := config;
      this.treatments := treatments;
      currentMatrix := 0;
      events := [];
      broadcasts := [];
    }

    /** One tick with the group's current decisions and a uniform draw;
        answers whether the matrix flipped. */
    method Tick(decisions: seq<real>, draw: real) returns (r: Result<bool, TickError>)
      requires Valid()
      modifies this
      ensures Valid()
      ensures match TickSpec(page, config, treatments, old(State()), TickInput(decisions, draw))
              case Ok(s) => r == Ok(s.matrix != old(currentMatrix)) && State() == s
              case Err(e) => r == Err(e) && State() == old(State())
      ensures r.Ok? ==> (r.value <==>
                var c := CoefficientsFor(LookupTreatment(config, treatments).value, old(currentMatrix)).value;
                draw < SwitchProbability(c, decisions[0], decisions[1]))
      ensures r.Ok? && r.value ==> currentMatrix == Toggle(old(currentMatrix)) && |events| == old(|events|) + 1
    {
      if |decisions| != 2 {
        return Err(WrongDecisionCount(|decisions|));
      }
      var q1, q2 := decisions[0], decisions[1];
      var t := LookupTreatment(config, treatments);
      if t.Err? {
        return Err(Config(t.error));
      }
      var c := CoefficientsFor(t.value, currentMatrix);
      if c.Err? {
        return Err(Config(c.error));
      }
      var pswitch := SwitchProbability(c.value, q1, q2);
      if draw < pswitch {
        currentMatrix := 1 - currentMatrix;
        events := events + [TransitionRecord(page.session, page.subsession, page.round, page.group,
                                             TRANSITIONS_CHANNEL, currentMatrix)];
        broadcasts := broadcasts + [Broadcast(page.group, MATRIX_CHANNEL, currentMatrix)];
        return Ok(true);
      }
      return Ok(false);
    }
  }
}
