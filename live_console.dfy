/**
 * The live-run console (`LiveRunConsole`): the streamed text and run status,
 * reset whenever the run id changes and updated by each stream event.
 */
module LiveConsole {
  import opened Wrappers
  import opened Collections

  /** The console's status: `IDLE`, `RUNNING`, `COMPLETED` or `FAILED`. */
  datatype Status = Idle | Running | Completed | Failed

  /**
   * The `delta` field of a `response.delta` event: missing (the payload did not
   * parse, so only `type` is set), `null`, or a text.
   */
  datatype DeltaField = Missing | NullDelta | Text(s: string)

  /** The stream events, one per event type of the run stream. */
  datatype Event = DeltaEvent(delta: DeltaField) | ProgressEvent | CompletedEvent | FailedEvent | EndEvent

  /** `runId ? …`: a run is being watched only for a non-empty id. */
  predicate HasRun(runId: Option<string>)
  {
    runId.Some? && runId.value != ""
  }

  /** What an event appends: `delta ?? ""` for a delta event carrying the field, otherwise nothing. */
  function Appended(e: Event): string
  {
    if e.DeltaEvent? && e.delta.Text? then e.delta.s else ""
  }

  /** `completed` and `failed` end a run. */
  predicate Terminal(e: Event)
  {
    e.CompletedEvent? || e.FailedEvent?
  }

  /** The console's state. */
  datatype State = State(text: string, status: Status)

  /**
   * The event handler: a delta appends its text; `completed` and `failed` set
   * the status whatever it was before; every other event changes nothing.
   */
  function Next(st: State, e: Event): (r: State)
    ensures r.text == st.text + Appended(e)
    ensures e.CompletedEvent? ==> r.status == Completed
    ensures e.FailedEvent? ==> r.status == Failed
    ensures !Terminal(e) ==> r.status == st.status
    ensures !e.DeltaEvent? ==> r.text == st.text
  {
    match e
    case CompletedEvent => State(st.text, Completed)
    case FailedEvent => State(st.text, Failed)
    case _ => State(st.text + Appended(e), st.status)
  }

  /** The state after handling the events in arrival order. */
  function Run(st: State, es: seq<Event>): State
    decreases |es|
  {
    if |es| == 0 then st else Next(Run(st, es[..|es| - 1]), es[|es| - 1])
  }

  /** What each event appends. */
  function Pieces(es: seq<Event>): (ps: seq<string>)
    ensures |ps| == |es|
    ensures forall i :: 0 <= i < |es| ==> ps[i] == Appended(es[i])
  {
    seq(|es|, i requires 0 <= i < |es| => Appended(es[i]))
  }

  /** The text is the old text followed by the deltas in arrival order. */
  lemma {:induction false} RunText(st: State, es: seq<Event>)
    ensures Run(st, es).text == st.text + Flatten(Pieces(es))
  {
    if |es| == 0 {
      assert Pieces(es) == [];
    } else {
      var n := |es| - 1;
      RunText(st, es[..n]);
      assert Pieces(es) == Pieces(es[..n]) + [Appended(es[n])];
      FlattenSnoc(Pieces(es[..n]), Appended(es[n]));
    }
  }

  /** Without `completed` or `failed` events the status is unchanged. */
  lemma {:induction false} RunStatusKept(st: State, es: seq<Event>)
    requires forall i :: 0 <= i < |es| ==> !Terminal(es[i])
    ensures Run(st, es).status == st.status
  {
    if |es| > 0 {
      RunStatusKept(st, es[..|es| - 1]);
    }
  }

  /**
   * The status is set by the last `completed` or `failed` event, whatever came
   * before it: an earlier `completed` does not stop a later `failed`.
   */
  lemma {:induction false} RunStatusLast(st: State, es: seq<Event>, i: nat)
    requires i < |es| && Terminal(es[i])
    requires forall j :: i < j < |es| ==> !Terminal(es[j])
    ensures Run(st, es).status == if es[i].CompletedEvent? then Completed else Failed
  {
    if i < |es| - 1 {
      RunStatusLast(st, es[..|es| - 1], i);
    }
  }

  /** Once a run is watched the status is never `IDLE` again. */
  lemma {:induction false} RunNeverIdle(st: State, es: seq<Event>)
    requires st.status != Idle
    ensures Run(st, es).status != Idle
  {
    if |es| > 0 {
      RunNeverIdle(st, es[..|es| - 1]);
    }
  }

  /** The rendered card: the first 8 characters of the run id, the status badge and the output. */
  datatype Card = Card(shortId: string, badge: Status, output: string)

  /** The console component with its `text` and `status` state and its `runId` prop. */
  class Console {
    var runId: Option<string>
    var text: string
    var status: Status

    /** Nothing is streamed and the status is `IDLE` exactly when no run is watched. */
    ghost predicate Valid()
      reads this
    {
      if HasRun(runId) then status != Idle else text == "" && status == Idle
    }

    /** Mounting with a run id: the initial `""` and `IDLE`, then the reset effect. */
    constructor (id: Option<string>)
      ensures Valid()
      ensures runId == id && text == ""
      ensures status == if HasRun(id) then Running else Idle
    {
      runId := id;
      text := "";
      status := if HasRun(id) then Running else Idle;
    }

    /** The effect run on a run id change: empty text, `RUNNING` with a run id and `IDLE` without. */
    method Reset(id: Option<string>)
      modifies this
      ensures Valid()
      ensures runId == id && text == ""
      ensures status == if HasRun(id) then Running else Idle
    {
      runId := id;
      text := "";
      status := if HasRun(id) then Running else Idle;
    }

    /** The stream's event handler; the stream exists only while a run is watched. */
    method Step(e: Event)
      requires Valid() && HasRun(runId)
      modifies this
      ensures Valid() && runId == old(runId)
      ensures State(text, status) == Next(old(State(text, status)), e)
    {
      if e.DeltaEvent? && !e.delta.Missing? {
        var d := if e.delta.Text? then e.delta.s else "";
        text := text + d;
      } else if e.CompletedEvent? {
        status := Completed;
      } else if e.FailedEvent? {
        status := Failed;
      }
    }

    /** Handling a run's events one by one, in arrival order. */
    method Feed(es: seq<Event>)
      requires Valid() && HasRun(runId)
      modifies this
      ensures Valid() && runId == old(runId)
      ensures State(text, status) == Run(old(State(text, status)), es)
    {
      for i := 0 to |es|
        invariant Valid() && runId == old(runId)
        invariant State(text, status) == Run(old(State(text, status)), es[..i])
      {
        Step(es[i]);
        assert es[..i + 1][..i] == es[..i];
      }
      assert es[..|es|] == es;
    }

    /**
     * The render guard: nothing without a run id; otherwise the card shows the
     * first 8 characters of the id, the status and the text or `…` while empty.
     */
    function Render(): (c: Option<Card>)
      reads this
      ensures c.None? <==> !HasRun(runId)
      ensures c.Some? ==> StartsWith(runId.value, c.value.shortId)
      ensures c.Some? ==> |c.value.shortId| == if |runId.value| < 8 then |runId.value| else 8
      ensures c.Some? ==> c.value.badge == status
      ensures c.Some? && text != "" ==> c.value.output == text
      ensures c.Some? && text == "" ==> c.value.output == "\U{2026}"
    {
      if !HasRun(runId) then None
      else Some(Card(Take(runId.value, 8), status, if text == "" then "\U{2026}" else text))
    }
  }

  /** A rendered card always shows a badge: its status is never `IDLE`. */
  lemma RenderedBadge(c: Console)
    requires c.Valid()
    ensures c.Render().Some? ==> c.Render().value.badge != Idle
  {
  }
}
