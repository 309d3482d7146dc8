/** The untimed pipeline allows whatever the timed receiver does: its timeouts may fire at any moment, those of
    the receiver fire when the clock says so. */
module TimedPipeline {
  import opened Pipeline
  import opened PipelineSafety
  import opened PipelineRuns
  import opened RxClock

  /** Labels for the end of a pass, from a pipeline at rest. */
  function PassLabels(abandons: bool, resets: bool): seq<Label> {
    (if abandons then [Abandon] else []) + (if resets then [SerialTimeout] + Repeated(RxRun, 4) else [])
  }

  /** `resetState` called on empty queues with nothing in hand has four steps to take. */
  lemma CallReset(s: State)
    requires Quiescent(s)
    ensures var t := Next(s, SerialTimeout);
            Undisturbed(t) && Left(t) == 4 && t == s.(rxAt := DrainingCommands)
  {
  }

  lemma ResetTurn(s: State)
    requires Invariant(s) && Quiescent(s)
    ensures var t := Exec(s, [SerialTimeout] + Repeated(RxRun, 4));
            Invariant(t) && Quiescent(t) && t.heard == s.heard
  {
    hide Invariant, Next, Times;
    ExecAppend(s, [SerialTimeout], Repeated(RxRun, 4));
    OneLabel(s, SerialTimeout);
    var called := Next(s, SerialTimeout);
    NextInvariant(s, SerialTimeout);
    CallReset(s);
    TimesIsExec(called, RxRun, 4);
    TimesKeep(called, RxRun, 4);
    ResetAlone(called, 4);
  }

  lemma PassTurn(s: State, abandons: bool, resets: bool)
    requires Invariant(s) && Quiescent(s)
    requires abandons ==> !s.rx.mode.Idle?
    ensures var t := Exec(s, PassLabels(abandons, resets));
            Invariant(t) && Quiescent(t) && t.heard == if abandons then s.heard + [[]] else s.heard
  {
    hide Invariant;
    var first := if abandons then [Abandon] else [];
    var second := if resets then [SerialTimeout] + Repeated(RxRun, 4) else [];
    var t := if abandons then Next(s, Abandon) else s;
    ExecAppend(s, first, second);
    if abandons {
      OneLabel(s, Abandon);
      NextInvariant(s, Abandon);
    }
    assert Exec(s, first) == t;
    if resets {
      ResetTurn(t);
    }
  }

  /** Every timed run of the receiver is the receiver's part of a run of the pipeline: same bytes, cut at the
      same places, same parser state, same payloads. */
  lemma {:induction false} TimedRunIsARun(first: nat, t0: nat, events: seq<Event>) returns (labels: seq<Label>)
    ensures var s := Exec(INIT, labels);
            && Invariant(s) && Quiescent(s)
            && s.heard == Segments(Start(first, t0), events)
            && s.rx == After(Start(first, t0), events).rx
            && s.accepted == Accepted(Start(first, t0), events)
    decreases |events|
  {
    hide Next, Invariant, Promptly, PassLabels;
    var c := Start(first, t0);
    if events == [] {
      labels := [];
      InitInvariant();
    } else {
      var front := TimedRunIsARun(first, t0, But(events));
      var s := Exec(INIT, front);
      match Final(events) {
        case Byte(b, _, _) =>
          labels := front + Promptly(b);
          ExecAppend(INIT, front, Promptly(b));
          ByteTurn(s, b);
        case Pass(checkAt, serialAt, _) =>
          var before := After(c, But(events));
          var more := PassLabels(Abandons(before, checkAt), Resets(before, serialAt));
          labels := front + more;
          ExecAppend(INIT, front, more);
          PassTurn(s, Abandons(before, checkAt), Resets(before, serialAt));
      }
    }
    SameHeard(labels, first, t0, events);
  }

  /** The pieces heard determine the rest. */
  lemma {:induction false} SameHeard(labels: seq<Label>, first: nat, t0: nat, events: seq<Event>)
    requires Exec(INIT, labels).heard == Segments(Start(first, t0), events)
    ensures var s := Exec(INIT, labels);
            && s.rx == After(Start(first, t0), events).rx
            && s.accepted == Accepted(Start(first, t0), events)
  {
    hide Next;
    AcceptedIsParsed(labels);
    SegmentsExplain(Start(first, t0), events);
  }
}
