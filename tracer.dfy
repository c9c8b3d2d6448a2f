/** A recording model of the tracer the reporter drives: `in_span` opens a span as a child of
    the current one, makes it current while its block runs and ends it when the block is left.
    The recorder keeps every span it has opened, the stack of open ones and a log of events. */
module Tracer {
  import Keys
  import opened Values

  datatype Option<T> = None | Some(value: T)

  /** One entry of the event log. */
  datatype Event =
    | Start(span: nat)                // a span is opened
    | SetAttr(span: nat, key: Keys.Key) // an attribute is set on the current span
    | Pause(span: nat)                // the thread sleeps while this span is current
    | End(span: nat)                  // a span is ended
    | Flush                           // the tracer provider is flushed

  /** A recorded span: start and end are positions of its Start and End events in the log. */
  datatype Span = Span(name: string, parent: Option<nat>, attrs: map<Keys.Key, Attribute>, start: nat, end: Option<nat>)

  /** What a span says, leaving out when it happened. */
  datatype Shape = Shape(name: string, parent: Option<nat>, attrs: map<Keys.Key, Attribute>)

  function ShapeOf(s: Span): Shape {
    Shape(s.name, s.parent, s.attrs)
  }

  function Shapes(ss: seq<Span>): seq<Shape> {
    seq(|ss|, i requires 0 <= i < |ss| => ShapeOf(ss[i]))
  }

  lemma {:induction false} ShapesAppend(a: seq<Span>, b: seq<Span>)
    ensures Shapes(a + b) == Shapes(a) + Shapes(b)
  {
  }

  /** The innermost open span, the parent of the next span to start. */
  function Top(open: seq<nat>): Option<nat> {
    if open == [] then None else Some(open[|open| - 1])
  }

  // ---------------------------------------------------------------------------------------
  // The recorder's invariant, stated on plain values

  /** Every span's start is the position of its Start event in the log. */
  ghost predicate StartsLogged(spans: seq<Span>, log: seq<Event>) {
    && (forall i {:trigger spans[i]} :: 0 <= i < |spans| ==> spans[i].start < |log| && log[spans[i].start] == Start(i))
  }

  /** Every ended span's end is the position of its End event in the log, after its start. */
  ghost predicate EndsLogged(spans: seq<Span>, log: seq<Event>) {
    && (forall i {:trigger spans[i]} :: 0 <= i < |spans| && spans[i].end.Some? ==>
          spans[i].start < spans[i].end.value < |log| && log[spans[i].end.value] == End(i))
  }

  /** An event that acts on the span it names while that span is open. */
  predicate IsAct(e: Event) {
    e.SetAttr? || e.Pause?
  }

  /** Attributes are set and pauses taken only while the span concerned is open. */
  ghost predicate ActsWhileOpen(spans: seq<Span>, log: seq<Event>) {
    && (forall e :: 0 <= e < |log| && IsAct(log[e]) ==> log[e].span < |spans|)
    && (forall e, i :: 0 <= e < |log| && 0 <= i < |spans| && IsAct(log[e]) && log[e].span == i ==>
          spans[i].start < e && (spans[i].end.Some? ==> e < spans[i].end.value))
  }

  /** Spans are numbered in the order they start, and a parent is always started before its child. */
  ghost predicate StartOrder(spans: seq<Span>) {
    && (forall i, j :: 0 <= i < j < |spans| ==> spans[i].start < spans[j].start)
    && (forall i :: 0 <= i < |spans| && spans[i].parent.Some? ==> spans[i].parent.value < i)
  }

  /** The open stack holds exactly the spans not yet ended, outermost first, each the child of the one below. */
  ghost predicate OpenStack(spans: seq<Span>, open: seq<nat>) {
    && (forall k :: 0 <= k < |open| ==> open[k] < |spans|)
    && (forall a, b :: 0 <= a < b < |open| ==> open[a] < open[b])
    && (forall i {:trigger spans[i]} :: 0 <= i < |spans| ==> (spans[i].end.None? <==> i in open))
    && (|open| > 0 ==> spans[open[0]].parent.None?)
    && (forall k :: 0 < k < |open| ==> spans[open[k]].parent == Some(open[k - 1]))
  }

  /** A span whose parent has ended has itself ended, and earlier than its parent. */
  ghost predicate ChildrenEndFirst(spans: seq<Span>) {
    forall q, i {:trigger spans[q], spans[i]} :: 0 <= q < i < |spans| && spans[i].parent == Some(q) && spans[q].end.Some? ==>
      spans[i].end.Some? && spans[i].end.value < spans[q].end.value
  }

  /** Of two spans with the same parent, the earlier has ended before the later starts. */
  ghost predicate SiblingsInSequence(spans: seq<Span>) {
    forall i, j :: 0 <= i < j < |spans| && spans[i].parent == spans[j].parent ==>
      spans[i].end.Some? && spans[i].end.value < spans[j].start
  }

  ghost predicate Consistent(spans: seq<Span>, open: seq<nat>, log: seq<Event>) {
    && StartsLogged(spans, log)
    && EndsLogged(spans, log)
    && ActsWhileOpen(spans, log)
    && StartOrder(spans)
    && OpenStack(spans, open)
    && ChildrenEndFirst(spans)
    && SiblingsInSequence(spans)
  }

  /** Always true; only the trigger by which `Guarded` is opened, for one recorder state. */
  ghost predicate RecorderKey(n: nat, spans: seq<Span>, open: seq<nat>, log: seq<Event>) {
    true
  }

  /** Consistent behind a guard: a proof that only passes the recorder's invariant along never
      meets a `RecorderKey` term for that state, so the invariant's quantifiers stay out of it. */
  ghost predicate Guarded(spans: seq<Span>, open: seq<nat>, log: seq<Event>) {
    forall n: nat {:trigger RecorderKey(n, spans, open, log)} :: RecorderKey(n, spans, open, log) ==> Consistent(spans, open, log)
  }

  lemma {:induction false} Unguard(spans: seq<Span>, open: seq<nat>, log: seq<Event>)
    requires Guarded(spans, open, log)
    ensures Consistent(spans, open, log)
  {
    assert RecorderKey(0, spans, open, log);
  }

  lemma {:induction false} Guard(spans: seq<Span>, open: seq<nat>, log: seq<Event>)
    requires Consistent(spans, open, log)
    ensures Guarded(spans, open, log)
  {
  }

  /** Every span started after the current one has ended: all of them are closed once the
      current span is about to end. */
  lemma {:induction false} LaterSpansEnded(spans: seq<Span>, open: seq<nat>, log: seq<Event>)
    requires Guarded(spans, open, log) && open != []
    ensures forall i :: open[|open| - 1] < i < |spans| ==> spans[i].end.Some? && spans[i].end.value < |log|
  {
    Unguard(spans, open, log);
    var top := open[|open| - 1];
    forall i | top < i < |spans| ensures spans[i].end.Some? && spans[i].end.value < |log| {
      forall k | 0 <= k < |open| - 1 ensures open[k] < top {
        assert open[k] < open[|open| - 1];
      }
      assert i !in open;
    }
  }

  /** No span but those on the stack is open; in particular no child of the innermost open span is. */
  lemma {:induction false} ChildrenOfTopEnded(spans: seq<Span>, open: seq<nat>)
    requires OpenStack(spans, open)
    ensures forall i :: 0 <= i < |spans| && spans[i].parent == Top(open) ==> spans[i].end.Some?
  {
    forall i | 0 <= i < |spans| && spans[i].parent == Top(open)
      ensures spans[i].end.Some?
    {
      forall k | 0 <= k < |open| ensures open[k] != i {
        if k > 0 {
          assert open[k - 1] < open[|open| - 1];
        }
      }
    }
  }

  // --- entering a span

  /** The recorder state after a span named `name` starts. */
  function StartedSpans(spans: seq<Span>, open: seq<nat>, log: seq<Event>, name: string): seq<Span> {
    spans + [Span(name, Top(open), map[], |log|, None)]
  }

  lemma {:induction false} StartKeepsLogs(spans: seq<Span>, open: seq<nat>, log: seq<Event>, name: string)
    requires StartsLogged(spans, log) && EndsLogged(spans, log) && ActsWhileOpen(spans, log)
    ensures var spans', log' := StartedSpans(spans, open, log, name), log + [Start(|spans|)];
      StartsLogged(spans', log') && EndsLogged(spans', log') && ActsWhileOpen(spans', log')
  {
    var spans', log' := StartedSpans(spans, open, log, name), log + [Start(|spans|)];
    assert forall i :: 0 <= i < |spans| ==> spans'[i] == spans[i];
    assert forall e :: 0 <= e < |log| ==> log'[e] == log[e];
  }

  lemma {:induction false} StartKeepsOrder(spans: seq<Span>, open: seq<nat>, log: seq<Event>, name: string)
    requires StartsLogged(spans, log) && StartOrder(spans) && OpenStack(spans, open)
    ensures StartOrder(StartedSpans(spans, open, log, name))
  {
    var spans' := StartedSpans(spans, open, log, name);
    assert forall i :: 0 <= i < |spans| ==> spans'[i] == spans[i];
  }

  lemma {:induction false} StartKeepsStack(spans: seq<Span>, open: seq<nat>, log: seq<Event>, name: string)
    requires OpenStack(spans, open)
    ensures OpenStack(StartedSpans(spans, open, log, name), open + [|spans|])
  {
    var spans', open' := StartedSpans(spans, open, log, name), open + [|spans|];
    assert forall i :: 0 <= i < |spans| ==> spans'[i] == spans[i];
    forall i | 0 <= i < |spans'| ensures spans'[i].end.None? <==> i in open' {
      if i < |spans| {
        assert i in open <==> i in open';
      }
    }
  }

  lemma {:induction false} StartKeepsNesting(spans: seq<Span>, open: seq<nat>, log: seq<Event>, name: string)
    requires EndsLogged(spans, log) && OpenStack(spans, open)
    requires ChildrenEndFirst(spans) && SiblingsInSequence(spans)
    ensures ChildrenEndFirst(StartedSpans(spans, open, log, name))
    ensures SiblingsInSequence(StartedSpans(spans, open, log, name))
  {
    ChildrenOfTopEnded(spans, open);
    var spans' := StartedSpans(spans, open, log, name);
    assert forall i :: 0 <= i < |spans| ==> spans'[i] == spans[i];
  }

  lemma {:induction false} StartKeepsConsistent(spans: seq<Span>, open: seq<nat>, log: seq<Event>, name: string)
    requires Consistent(spans, open, log)
    ensures Consistent(StartedSpans(spans, open, log, name), open + [|spans|], log + [Start(|spans|)])
  {
    StartKeepsLogs(spans, open, log, name);
    StartKeepsOrder(spans, open, log, name);
    StartKeepsStack(spans, open, log, name);
    StartKeepsNesting(spans, open, log, name);
  }

  // --- leaving a span

  /** The recorder's spans after the innermost open span ends. */
  function EndedSpans(spans: seq<Span>, open: seq<nat>, log: seq<Event>): seq<Span>
    requires open != [] && open[|open| - 1] < |spans|
  {
    var top := open[|open| - 1];
    spans[top := spans[top].(end := Some(|log|))]
  }

  lemma {:induction false} EndKeepsLogs(spans: seq<Span>, open: seq<nat>, log: seq<Event>)
    requires StartsLogged(spans, log) && EndsLogged(spans, log) && ActsWhileOpen(spans, log)
    requires OpenStack(spans, open) && open != []
    ensures var spans', log' := EndedSpans(spans, open, log), log + [End(open[|open| - 1])];
      StartsLogged(spans', log') && EndsLogged(spans', log') && ActsWhileOpen(spans', log')
  {
    var top := open[|open| - 1];
    var spans', log' := EndedSpans(spans, open, log), log + [End(top)];
    assert forall e :: 0 <= e < |log| ==> log'[e] == log[e];
    assert spans[top].end.None?;
  }

  lemma {:induction false} EndKeepsStack(spans: seq<Span>, open: seq<nat>, log: seq<Event>)
    requires OpenStack(spans, open) && open != []
    ensures OpenStack(EndedSpans(spans, open, log), open[..|open| - 1])
  {
    var top := open[|open| - 1];
    var spans', open' := EndedSpans(spans, open, log), open[..|open| - 1];
    assert top !in open' by {
      forall k | 0 <= k < |open'| ensures open'[k] != top {
        assert open[k] < open[|open| - 1];
      }
    }
    forall i | 0 <= i < |spans'| ensures spans'[i].end.None? <==> i in open' {
      if i != top {
        assert i in open <==> i in open';
      }
    }
  }

  lemma {:induction false} EndKeepsNesting(spans: seq<Span>, open: seq<nat>, log: seq<Event>)
    requires EndsLogged(spans, log) && OpenStack(spans, open) && open != []
    requires ChildrenEndFirst(spans) && SiblingsInSequence(spans)
    ensures ChildrenEndFirst(EndedSpans(spans, open, log))
    ensures SiblingsInSequence(EndedSpans(spans, open, log))
  {
    ChildrenOfTopEnded(spans, open);
    var top := open[|open| - 1];
    var spans' := EndedSpans(spans, open, log);
    // the parent of the innermost open span is still open
    if |open| > 1 {
      assert spans[top].parent == Some(open[|open| - 2]);
      assert open[|open| - 2] in open;
    } else {
      assert spans[top].parent.None?;
    }
  }

  lemma {:induction false} EndKeepsConsistent(spans: seq<Span>, open: seq<nat>, log: seq<Event>)
    requires Consistent(spans, open, log) && open != []
    ensures Consistent(EndedSpans(spans, open, log), open[..|open| - 1], log + [End(open[|open| - 1])])
  {
    EndKeepsLogs(spans, open, log);
    EndKeepsStack(spans, open, log);
    EndKeepsNesting(spans, open, log);
    var spans' := EndedSpans(spans, open, log);
    assert forall i :: 0 <= i < |spans| ==> spans'[i].start == spans[i].start && spans'[i].parent == spans[i].parent;
  }

  // --- acting inside the current span

  lemma {:induction false} ActKeepsConsistent(spans: seq<Span>, open: seq<nat>, log: seq<Event>, e: Event)
    requires Consistent(spans, open, log) && open != []
    requires IsAct(e) && e.span == open[|open| - 1]
    ensures Consistent(spans, open, log + [e])
  {
    var log' := log + [e];
    assert forall k :: 0 <= k < |log| ==> log'[k] == log[k];
    assert spans[open[|open| - 1]].end.None?;
  }

  /** Two span sequences that differ at most in names and attributes. */
  ghost predicate SameTiming(spans: seq<Span>, spans': seq<Span>) {
    |spans'| == |spans| &&
    forall i :: 0 <= i < |spans| ==>
      spans'[i].parent == spans[i].parent && spans'[i].start == spans[i].start && spans'[i].end == spans[i].end
  }

  lemma {:induction false} SameTimingKeepsLogs(spans: seq<Span>, spans': seq<Span>, log: seq<Event>)
    requires SameTiming(spans, spans')
    requires StartsLogged(spans, log) && EndsLogged(spans, log) && ActsWhileOpen(spans, log)
    ensures StartsLogged(spans', log) && EndsLogged(spans', log) && ActsWhileOpen(spans', log)
  {
  }

  lemma {:induction false} SameTimingKeepsOrder(spans: seq<Span>, spans': seq<Span>, open: seq<nat>)
    requires SameTiming(spans, spans')
    requires StartOrder(spans) && OpenStack(spans, open)
    ensures StartOrder(spans') && OpenStack(spans', open)
  {
  }

  lemma {:induction false} SameTimingKeepsNesting(spans: seq<Span>, spans': seq<Span>)
    requires SameTiming(spans, spans')
    requires ChildrenEndFirst(spans) && SiblingsInSequence(spans)
    ensures ChildrenEndFirst(spans') && SiblingsInSequence(spans')
  {
  }

  /** The recorder's spans after `key` is set to `value` on the innermost open span. */
  function AttrSetSpans(spans: seq<Span>, open: seq<nat>, key: Keys.Key, value: Attribute): seq<Span>
    requires open != [] && open[|open| - 1] < |spans|
  {
    var top := open[|open| - 1];
    spans[top := spans[top].(attrs := spans[top].attrs[key := value])]
  }

  lemma {:induction false} SetAttrKeepsConsistent(spans: seq<Span>, open: seq<nat>, log: seq<Event>, key: Keys.Key, value: Attribute)
    requires Consistent(spans, open, log) && open != []
    ensures Consistent(AttrSetSpans(spans, open, key, value), open, log + [SetAttr(open[|open| - 1], key)])
  {
    var top := open[|open| - 1];
    ActKeepsConsistent(spans, open, log, SetAttr(top, key));
    var log' := log + [SetAttr(top, key)];
    var spans' := AttrSetSpans(spans, open, key, value);
    assert SameTiming(spans, spans');
    SameTimingKeepsLogs(spans, spans', log');
    SameTimingKeepsOrder(spans, spans', open);
    SameTimingKeepsNesting(spans, spans');
  }

  lemma {:induction false} EmptyLogged()
    ensures StartsLogged([], []) && EndsLogged([], []) && ActsWhileOpen([], [])
  {
  }

  lemma {:induction false} EmptyOrdered()
    ensures StartOrder([]) && OpenStack([], [])
  {
  }

  lemma {:induction false} EmptyNested()
    ensures ChildrenEndFirst([]) && SiblingsInSequence([])
  {
  }

  lemma {:induction false} EmptyConsistent()
    ensures Consistent([], [], [])
  {
    EmptyLogged();
    EmptyOrdered();
    EmptyNested();
  }

  lemma {:induction false} FlushKeepsConsistent(spans: seq<Span>, open: seq<nat>, log: seq<Event>)
    requires Consistent(spans, open, log)
    ensures Consistent(spans, open, log + [Flush])
  {
    var log' := log + [Flush];
    assert forall k :: 0 <= k < |log| ==> log'[k] == log[k];
  }

  // ---------------------------------------------------------------------------------------

  class Recorder {
    var spans: seq<Span>
    var open: seq<nat>
    var log: seq<Event>

    /** The invariant, guarded; the bound on the current span is kept in the open because
        every operation on the current span needs it. */
    ghost predicate Valid()
      reads this
    {
      && Guarded(spans, open, log)
      && (open != [] ==> open[|open| - 1] < |spans|)
    }

    constructor ()
      ensures Valid()
      ensures spans == [] && open == [] && log == []
    {
      EmptyConsistent();
      Guard([], [], []);
      spans, open, log := [], [], [];
    }

    /** The current span: the parent a new span gets. */
    function Current(): Option<nat>
      reads this
    {
      Top(open)
    }

    /** Entering an in_span block: a new span, child of the current one, becomes current. */
    method StartSpan(name: string) returns (id: nat)
      requires Valid()
      modifies this
      ensures Valid()
      ensures id == |old(spans)|
      ensures spans == old(spans) + [Span(name, old(Current()), map[], |old(log)|, None)]
      ensures open == old(open) + [id]
      ensures log == old(log) + [Start(id)]
    {
      Unguard(spans, open, log);
      StartKeepsConsistent(spans, open, log, name);
      id := |spans|;
      spans, open, log := StartedSpans(spans, open, log, name), open + [id], log + [Start(id)];
      Guard(spans, open, log);
    }

    /** span.set_attribute on the current span. */
    method SetAttribute(key: Keys.Key, value: Attribute)
      requires Valid() && open != []
      modifies this
      ensures Valid()
      ensures var top := old(open)[|old(open)| - 1];
        && spans == old(spans)[top := old(spans)[top].(attrs := old(spans)[top].attrs[key := value])]
        && open == old(open)
        && log == old(log) + [SetAttr(top, key)]
    {
      Unguard(spans, open, log);
      SetAttrKeepsConsistent(spans, open, log, key, value);
      spans, log := AttrSetSpans(spans, open, key, value), log + [SetAttr(open[|open| - 1], key)];
      Guard(spans, open, log);
    }

    /** A sleep taken inside the current span's block. */
    method Sleep()
      requires Valid() && open != []
      modifies this
      ensures Valid()
      ensures spans == old(spans) && open == old(open)
      ensures log == old(log) + [Pause(old(open)[|old(open)| - 1])]
    {
      Unguard(spans, open, log);
      ActKeepsConsistent(spans, open, log, Pause(open[|open| - 1]));
      log := log + [Pause(open[|open| - 1])];
      Guard(spans, open, log);
    }

    /** Leaving an in_span block: the current span ends and its parent becomes current again. */
    method EndSpan()
      requires Valid() && open != []
      modifies this
      ensures Valid()
      ensures var top := old(open)[|old(open)| - 1];
        && spans == old(spans)[top := old(spans)[top].(end := Some(|old(log)|))]
        && open == old(open)[..|old(open)| - 1]
        && log == old(log) + [End(top)]
    {
      Unguard(spans, open, log);
      EndKeepsConsistent(spans, open, log);
      spans, open, log := EndedSpans(spans, open, log), open[..|open| - 1], log + [End(open[|open| - 1])];
      Guard(spans, open, log);
    }

    /** tracer_provider.force_flush, seen only as an event. */
    method ForceFlush()
      requires Valid()
      modifies this
      ensures Valid()
      ensures spans == old(spans) && open == old(open)
      ensures log == old(log) + [Flush]
    {
      Unguard(spans, open, log);
      FlushKeepsConsistent(spans, open, log);
      log := log + [Flush];
      Guard(spans, open, log);
    }
  }
}
