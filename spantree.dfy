/** The tree of spans a walk is meant to produce, and what producing it in pre-order leaves
    behind: the spans' names, parents and attributes, and the event log. */
module SpanTree {
  import Keys
  import opened Values
  import opened Tracer

  /** One span to open: its name, the attributes set right after it starts, whether the
      walk pauses once they are set, the child spans opened inside it in order, and the
      attributes set after the last child has ended. */
  datatype Plan = Plan(
    name: string,
    before: seq<(Keys.Key, Value)>,
    pause: bool,
    children: seq<Plan>,
    after: seq<(Keys.Key, Value)>)

  /** Number of spans in a tree. */
  function Size(pl: Plan): nat
    decreases pl
  {
    1 + SizeAll(pl.children)
  }

  function SizeAll(pls: seq<Plan>): nat
    decreases pls
  {
    if |pls| == 0 then 0 else SizeAll(pls[..|pls| - 1]) + Size(pls[|pls| - 1])
  }

  /** The SetAttr events set_attributes logs on span `id`: one per non-nil entry, in order. */
  function AttrEvents(id: nat, ps: seq<(Keys.Key, Value)>): seq<Event> {
    if |ps| == 0 then []
    else
      var last := ps[|ps| - 1];
      AttrEvents(id, ps[..|ps| - 1]) + (if last.1 == Nil then [] else [SetAttr(id, last.0)])
  }

  /** The attributes a span of the tree carries once it has ended. */
  function FinalAttrs(pl: Plan): map<Keys.Key, Attribute> {
    Attach(Attach(map[], pl.before), pl.after)
  }

  /** The spans of a tree whose root is numbered `id` and hangs below `parent`, in the order
      they start; every child is numbered after the spans of its elder siblings. */
  function Layout(pl: Plan, id: nat, parent: Option<nat>): (r: seq<Shape>)
    ensures |r| == Size(pl)
    decreases pl
  {
    [Shape(pl.name, parent, FinalAttrs(pl))] + LayoutAll(pl.children, id + 1, Some(id))
  }

  function LayoutAll(pls: seq<Plan>, id: nat, parent: Option<nat>): (r: seq<Shape>)
    ensures |r| == SizeAll(pls)
    decreases pls
  {
    if |pls| == 0 then []
    else
      var init := pls[..|pls| - 1];
      LayoutAll(init, id, parent) + Layout(pls[|pls| - 1], id + SizeAll(init), parent)
  }

  /** The events of a pre-order walk over a tree whose root is numbered `id`. */
  function Log(pl: Plan, id: nat): seq<Event>
    decreases pl
  {
    [Start(id)] + AttrEvents(id, pl.before) + (if pl.pause then [Pause(id)] else [])
      + LogAll(pl.children, id + 1) + AttrEvents(id, pl.after) + [End(id)]
  }

  function LogAll(pls: seq<Plan>, id: nat): seq<Event>
    decreases pls
  {
    if |pls| == 0 then []
    else
      var init := pls[..|pls| - 1];
      LogAll(init, id) + Log(pls[|pls| - 1], id + SizeAll(init))
  }

  /** One more tree at the end of a forest: its size, its spans and its events come after the
      forest's. */
  lemma {:induction false} SizeAllSnoc(pls: seq<Plan>, k: nat)
    requires k < |pls|
    ensures SizeAll(pls[..k + 1]) == SizeAll(pls[..k]) + Size(pls[k])
  {
    assert pls[..k + 1][..k] == pls[..k];
  }

  lemma {:induction false} LayoutAllSnoc(pls: seq<Plan>, id: nat, parent: Option<nat>, k: nat)
    requires k < |pls|
    ensures LayoutAll(pls[..k + 1], id, parent) == LayoutAll(pls[..k], id, parent) + Layout(pls[k], id + SizeAll(pls[..k]), parent)
  {
    assert pls[..k + 1][..k] == pls[..k];
  }

  lemma {:induction false} LogAllSnoc(pls: seq<Plan>, id: nat, k: nat)
    requires k < |pls|
    ensures LogAll(pls[..k + 1], id) == LogAll(pls[..k], id) + Log(pls[k], id + SizeAll(pls[..k]))
  {
    assert pls[..k + 1][..k] == pls[..k];
  }

  /** A slice of a concatenation that lies in its second part. */
  lemma {:induction false} SliceRight<T>(x: seq<T>, y: seq<T>, lo: nat, hi: nat)
    requires |x| <= lo <= hi <= |x| + |y|
    ensures (x + y)[lo..hi] == y[lo - |x|..hi - |x|]
  {
  }

  /** A slice of a concatenation that lies in its first part. */
  lemma {:induction false} SliceLeft<T>(x: seq<T>, y: seq<T>, lo: nat, hi: nat)
    requires lo <= hi <= |x|
    ensures (x + y)[lo..hi] == x[lo..hi]
  {
  }

  /** When a sequence starts with `x + y`, the slice after `x` is `y`. */
  lemma {:induction false} PrefixThenSlice<T>(s: seq<T>, x: seq<T>, y: seq<T>)
    requires |x| + |y| <= |s| && s[..|x| + |y|] == x + y
    ensures s[|x|..|x| + |y|] == y
  {
    assert s[|x|..|x| + |y|] == s[..|x| + |y|][|x|..];
  }

  /** The layout of the first `j` trees of a forest is a prefix of the forest's layout. */
  lemma {:induction false} LayoutAllPrefix(pls: seq<Plan>, id: nat, parent: Option<nat>, j: nat)
    requires j <= |pls|
    ensures SizeAll(pls[..j]) <= SizeAll(pls)
    ensures LayoutAll(pls, id, parent)[..SizeAll(pls[..j])] == LayoutAll(pls[..j], id, parent)
    decreases |pls|
  {
    if j == |pls| {
      assert pls[..j] == pls;
    } else {
      var init := pls[..|pls| - 1];
      var front := LayoutAll(init, id, parent);
      assert LayoutAll(pls, id, parent) == front + Layout(pls[|pls| - 1], id + SizeAll(init), parent);
      assert init[..j] == pls[..j];
      LayoutAllPrefix(init, id, parent, j);
      SliceLeft(front, Layout(pls[|pls| - 1], id + SizeAll(init), parent), 0, SizeAll(pls[..j]));
    }
  }

  /** The spans of tree `k` of a forest sit together in the forest's layout, right after the
      spans of the trees before it. */
  lemma {:induction false} LayoutAllSlot(pls: seq<Plan>, id: nat, parent: Option<nat>, k: nat)
    requires k < |pls|
    ensures SizeAll(pls[..k]) + Size(pls[k]) <= SizeAll(pls)
    ensures LayoutAll(pls, id, parent)[SizeAll(pls[..k])..SizeAll(pls[..k]) + Size(pls[k])]
         == Layout(pls[k], id + SizeAll(pls[..k]), parent)
  {
    var lo := SizeAll(pls[..k]);
    var front, last := LayoutAll(pls[..k], id, parent), Layout(pls[k], id + lo, parent);
    var pre, whole := LayoutAll(pls[..k + 1], id, parent), LayoutAll(pls, id, parent);
    LayoutAllSnoc(pls, id, parent, k);
    LayoutAllPrefix(pls, id, parent, k + 1);
    PrefixSlot(whole, pre, front, last);
  }

  /** When a sequence starts with `pre == x + y`, the slice after `x` is `y`. */
  lemma {:induction false} PrefixSlot<T>(s: seq<T>, pre: seq<T>, x: seq<T>, y: seq<T>)
    requires |pre| <= |s| && s[..|pre|] == pre && pre == x + y
    ensures |x| + |y| <= |s| && s[|x|..|x| + |y|] == y
  {
    PrefixThenSlice(s, x, y);
  }

  /** The spans of a node's child `k` sit together in the node's layout, at `lo`, after the node
      and the spans of the elder children, laid out below the node. */
  lemma {:induction false} LayoutChild(pl: Plan, id: nat, parent: Option<nat>, k: nat, lo: nat)
    requires k < |pl.children| && lo == 1 + SizeAll(pl.children[..k])
    ensures lo + Size(pl.children[k]) <= Size(pl)
    ensures Layout(pl, id, parent)[lo..lo + Size(pl.children[k])] == Layout(pl.children[k], id + lo, Some(id))
  {
    LayoutAllSlot(pl.children, id + 1, Some(id), k);
    var head, rest := [Shape(pl.name, parent, FinalAttrs(pl))], LayoutAll(pl.children, id + 1, Some(id));
    assert Layout(pl, id, parent) == head + rest;
    SliceRight(head, rest, lo, lo + Size(pl.children[k]));
  }

  /** The first span of a tree is its root. */
  lemma {:induction false} RootShape(pl: Plan, id: nat, parent: Option<nat>)
    ensures Layout(pl, id, parent)[0] == Shape(pl.name, parent, FinalAttrs(pl))
  {
  }

  /** The events of the first `j` trees of a forest's walk are a prefix of the forest's events. */
  lemma {:induction false} LogAllPrefix(pls: seq<Plan>, id: nat, j: nat)
    requires j <= |pls|
    ensures |LogAll(pls[..j], id)| <= |LogAll(pls, id)|
    ensures LogAll(pls, id)[..|LogAll(pls[..j], id)|] == LogAll(pls[..j], id)
    decreases |pls|
  {
    if j == |pls| {
      assert pls[..j] == pls;
    } else {
      var init := pls[..|pls| - 1];
      var front, last := LogAll(init, id), Log(pls[|pls| - 1], id + SizeAll(init));
      assert LogAll(pls, id) == front + last;
      assert init[..j] == pls[..j];
      LogAllPrefix(init, id, j);
      SliceLeft(front, last, 0, |LogAll(pls[..j], id)|);
    }
  }

  /** The events of tree `k` of a forest's walk sit together, right after those of the trees
      before it. */
  lemma {:induction false} LogAllSlot(pls: seq<Plan>, id: nat, k: nat)
    requires k < |pls|
    ensures var lo, seg := |LogAll(pls[..k], id)|, Log(pls[k], id + SizeAll(pls[..k]));
      && lo + |seg| <= |LogAll(pls, id)|
      && LogAll(pls, id)[lo..lo + |seg|] == seg
  {
    var front, last := LogAll(pls[..k], id), Log(pls[k], id + SizeAll(pls[..k]));
    var pre, whole := LogAll(pls[..k + 1], id), LogAll(pls, id);
    LogAllSnoc(pls, id, k);
    LogAllPrefix(pls, id, k + 1);
    PrefixSlot(whole, pre, front, last);
  }

  /** The events of a node's child `k` sit together in the node's walk, after the node's entry
      and the walks of the elder children. */
  lemma {:induction false} LogChild(pl: Plan, id: nat, k: nat)
    requires k < |pl.children|
    ensures var lo, seg := |Entry(pl, id)| + |LogAll(pl.children[..k], id + 1)|,
                           Log(pl.children[k], id + 1 + SizeAll(pl.children[..k]));
      && lo + |seg| <= |Log(pl, id)|
      && Log(pl, id)[lo..lo + |seg|] == seg
  {
    LogAllSlot(pl.children, id + 1, k);
    var entry, children, tail := Entry(pl, id), LogAll(pl.children, id + 1), AttrEvents(id, pl.after) + [End(id)];
    assert Log(pl, id) == entry + children + tail;
    SliceMiddle(entry, children, tail, |LogAll(pl.children[..k], id + 1)|,
      |LogAll(pl.children[..k], id + 1)| + |Log(pl.children[k], id + 1 + SizeAll(pl.children[..k]))|);
  }

  /** A slice of a concatenation that lies in its middle part. */
  lemma {:induction false} SliceMiddle<T>(x: seq<T>, y: seq<T>, z: seq<T>, lo: nat, hi: nat)
    requires lo <= hi <= |y|
    ensures |x| + hi <= |x + y + z| && (x + y + z)[|x| + lo..|x| + hi] == y[lo..hi]
  {
    assert (x + y + z)[|x| + lo..|x| + hi] == (x + y)[|x| + lo..|x| + hi];
  }

  // ---------------------------------------------------------------------------------------
  // What the events of a walk are about

  /** Every event set_attributes logs sets an attribute on the span it was given. */
  lemma {:induction false} AttrEventsOn(id: nat, ps: seq<(Keys.Key, Value)>)
    ensures forall e :: 0 <= e < |AttrEvents(id, ps)| ==> AttrEvents(id, ps)[e].SetAttr? && AttrEvents(id, ps)[e].span == id
    decreases |ps|
  {
    if |ps| > 0 {
      AttrEventsOn(id, ps[..|ps| - 1]);
    }
  }

  /** The events of a tree's walk are about the tree's own spans, and none is a flush. */
  lemma {:induction false} LogAbout(pl: Plan, id: nat)
    ensures forall e :: 0 <= e < |Log(pl, id)| ==>
      !Log(pl, id)[e].Flush? && id <= Log(pl, id)[e].span < id + Size(pl)
    decreases pl, 1
  {
    AttrEventsOn(id, pl.before);
    AttrEventsOn(id, pl.after);
    LogAllAbout(pl.children, id + 1);
  }

  lemma {:induction false} LogAllAbout(pls: seq<Plan>, id: nat)
    ensures forall e :: 0 <= e < |LogAll(pls, id)| ==>
      !LogAll(pls, id)[e].Flush? && id <= LogAll(pls, id)[e].span < id + SizeAll(pls)
    decreases pls, 0
  {
    if |pls| > 0 {
      var init := pls[..|pls| - 1];
      LogAllAbout(init, id);
      LogAbout(pls[|pls| - 1], id + SizeAll(init));
    }
  }

  // ---------------------------------------------------------------------------------------
  // Pauses

  /** How many times `e` occurs in `log`. */
  function Occurrences(e: Event, log: seq<Event>): nat {
    if |log| == 0 then 0 else Occurrences(e, log[..|log| - 1]) + (if log[|log| - 1] == e then 1 else 0)
  }

  lemma {:induction false} OccurrencesAppend(e: Event, a: seq<Event>, b: seq<Event>)
    ensures Occurrences(e, a + b) == Occurrences(e, a) + Occurrences(e, b)
    decreases |b|
  {
    if |b| == 0 {
      assert a + b == a;
    } else {
      assert (a + b)[..|a + b| - 1] == a + b[..|b| - 1];
      OccurrencesAppend(e, a, b[..|b| - 1]);
    }
  }

  /** An event that does not occur at any position occurs zero times. */
  lemma {:induction false} OccurrencesNone(e: Event, log: seq<Event>)
    requires forall i :: 0 <= i < |log| ==> log[i] != e
    ensures Occurrences(e, log) == 0
    decreases |log|
  {
    if |log| > 0 {
      OccurrencesNone(e, log[..|log| - 1]);
    }
  }

  /** The walk of a tree pauses once inside its root span if the tree says so, and never otherwise. */
  lemma {:induction false} RootPauses(pl: Plan, id: nat)
    ensures Occurrences(Pause(id), Log(pl, id)) == if pl.pause then 1 else 0
  {
    var e := Pause(id);
    AttrEventsOn(id, pl.before);
    AttrEventsOn(id, pl.after);
    LogAllAbout(pl.children, id + 1);
    var before, children, after := AttrEvents(id, pl.before), LogAll(pl.children, id + 1), AttrEvents(id, pl.after);
    OccurrencesNone(e, before);
    OccurrencesNone(e, children);
    OccurrencesNone(e, after);
    var pause := if pl.pause then [Pause(id)] else [];
    OccurrencesAppend(e, [Start(id)], before);
    OccurrencesAppend(e, [Start(id)] + before, pause);
    OccurrencesAppend(e, [Start(id)] + before + pause, children);
    OccurrencesAppend(e, [Start(id)] + before + pause + children, after);
    OccurrencesAppend(e, [Start(id)] + before + pause + children + after, [End(id)]);
    assert Occurrences(e, [Start(id)]) == 0 by {
      assert [Start(id)][..0] == [];
    }
    assert Occurrences(e, [End(id)]) == 0 by {
      assert [End(id)][..0] == [];
    }
    assert Occurrences(e, pause) == if pl.pause then 1 else 0 by {
      if pl.pause {
        assert pause[..0] == [];
      }
    }
  }

  /** Where the pause falls: after the root span's Start and its first attributes, before
      the events of its children. */
  lemma {:induction false} PauseAfterAttributes(pl: Plan, id: nat)
    requires pl.pause
    ensures var at := 1 + |AttrEvents(id, pl.before)|;
      && at < |Log(pl, id)| && Log(pl, id)[at] == Pause(id)
      && Log(pl, id)[0] == Start(id)
      && (forall e :: 0 < e < at ==> Log(pl, id)[e].SetAttr? && Log(pl, id)[e].span == id)
      && Log(pl, id)[at + 1..at + 1 + |LogAll(pl.children, id + 1)|] == LogAll(pl.children, id + 1)
  {
    AttrEventsOn(id, pl.before);
    var before := AttrEvents(id, pl.before);
    assert forall e :: 0 < e < 1 + |before| ==> Log(pl, id)[e] == before[e - 1];
  }

  /** All the pauses of a walk: one per tree that pauses. */
  function Pauses(pl: Plan): nat
    decreases pl
  {
    (if pl.pause then 1 else 0) + PausesAll(pl.children)
  }

  function PausesAll(pls: seq<Plan>): nat
    decreases pls
  {
    if |pls| == 0 then 0 else PausesAll(pls[..|pls| - 1]) + Pauses(pls[|pls| - 1])
  }

  /** How many pause events `log` holds, whichever span they are about. */
  function PauseEvents(log: seq<Event>): nat {
    if |log| == 0 then 0 else PauseEvents(log[..|log| - 1]) + (if log[|log| - 1].Pause? then 1 else 0)
  }

  lemma {:induction false} PauseEventsAppend(a: seq<Event>, b: seq<Event>)
    ensures PauseEvents(a + b) == PauseEvents(a) + PauseEvents(b)
    decreases |b|
  {
    if |b| == 0 {
      assert a + b == a;
    } else {
      assert (a + b)[..|a + b| - 1] == a + b[..|b| - 1];
      PauseEventsAppend(a, b[..|b| - 1]);
    }
  }

  lemma {:induction false} AttrEventsNoPause(id: nat, ps: seq<(Keys.Key, Value)>)
    ensures PauseEvents(AttrEvents(id, ps)) == 0
    decreases |ps|
  {
    if |ps| > 0 {
      var last := ps[|ps| - 1];
      AttrEventsNoPause(id, ps[..|ps| - 1]);
      PauseEventsAppend(AttrEvents(id, ps[..|ps| - 1]), if last.1 == Nil then [] else [SetAttr(id, last.0)]);
      assert [SetAttr(id, last.0)][..0] == [];
    }
  }

  /** A walk pauses exactly as often as the tree has nodes that pause. */
  lemma {:induction false} PauseEventsCount(pl: Plan, id: nat)
    ensures PauseEvents(Log(pl, id)) == Pauses(pl)
    decreases pl, 1
  {
    var before, children, after := AttrEvents(id, pl.before), LogAll(pl.children, id + 1), AttrEvents(id, pl.after);
    var pause := if pl.pause then [Pause(id)] else [];
    AttrEventsNoPause(id, pl.before);
    AttrEventsNoPause(id, pl.after);
    PauseEventsAllCount(pl.children, id + 1);
    PauseEventsAppend([Start(id)], before);
    PauseEventsAppend([Start(id)] + before, pause);
    PauseEventsAppend([Start(id)] + before + pause, children);
    PauseEventsAppend([Start(id)] + before + pause + children, after);
    PauseEventsAppend([Start(id)] + before + pause + children + after, [End(id)]);
    assert [Start(id)][..0] == [] && [End(id)][..0] == [];
    assert PauseEvents(pause) == if pl.pause then 1 else 0 by {
      if pl.pause {
        assert pause[..0] == [];
      }
    }
  }

  lemma {:induction false} PauseEventsAllCount(pls: seq<Plan>, id: nat)
    ensures PauseEvents(LogAll(pls, id)) == PausesAll(pls)
    decreases pls, 0
  {
    if |pls| > 0 {
      var init := pls[..|pls| - 1];
      PauseEventsAllCount(init, id);
      PauseEventsCount(pls[|pls| - 1], id + SizeAll(init));
      PauseEventsAppend(LogAll(init, id), Log(pls[|pls| - 1], id + SizeAll(init)));
    }
  }

  /** A sequence extended at its end keeps its prefixes and splits where the extension begins. */
  lemma {:induction false} Extends<T>(s: seq<T>, s': seq<T>, base: nat)
    requires base <= |s| <= |s'| && s'[..|s|] == s
    ensures s'[..base] == s[..base]
    ensures s'[base..] == s[base..] + s'[|s|..]
  {
    assert s'[..base] == s'[..|s|][..base];
  }

  // ---------------------------------------------------------------------------------------
  // A recorder's spans and log after a walk

  /** `s1` and `l1` are `s0` and `l0` with the spans of `shapes` and the events of `events`
      added at their ends. */
  ghost predicate Appended(s0: seq<Span>, l0: seq<Event>, s1: seq<Span>, l1: seq<Event>, shapes: seq<Shape>, events: seq<Event>) {
    && |s0| <= |s1| && s1[..|s0|] == s0
    && Shapes(s1[|s0|..]) == shapes
    && l1 == l0 + events
  }

  /** Always true; only the trigger by which `Laid` is opened. */
  ghost predicate LaidKey(n: nat, s: seq<Span>, at: nat) {
    true
  }

  /** The spans of `s` from index `at` on are the spans of the tree `pl`, numbered from `at`
      and hanging below `parent`. Kept behind a guard (`LaidKey`), so that stating it of a
      concrete tree does not unfold that tree's layout. */
  ghost predicate Laid(s: seq<Span>, at: nat, pl: Plan, parent: Option<nat>) {
    forall n: nat {:trigger LaidKey(n, s, at)} :: LaidKey(n, s, at) ==>
      at + Size(pl) <= |s| && Shapes(s[at..at + Size(pl)]) == Layout(pl, at, parent)
  }

  /** A walk appends exactly the tree's spans. */
  lemma {:induction false} AppendedLaid(s0: seq<Span>, l0: seq<Event>, s1: seq<Span>, l1: seq<Event>, pl: Plan,
                                        parent: Option<nat>, events: seq<Event>)
    requires Appended(s0, l0, s1, l1, Layout(pl, |s0|, parent), events)
    ensures Laid(s1, |s0|, pl, parent)
  {
    assert s1[|s0|..|s0| + Size(pl)] == s1[|s0|..];
  }

  /** The span at `at` is the tree's root. */
  lemma {:induction false} LaidRoot(s: seq<Span>, at: nat, pl: Plan, parent: Option<nat>)
    requires Laid(s, at, pl, parent)
    ensures at < |s| && ShapeOf(s[at]) == Shape(pl.name, parent, FinalAttrs(pl))
  {
    assert LaidKey(0, s, at);
    RootShape(pl, at, parent);
    assert Shapes(s[at..at + Size(pl)])[0] == ShapeOf(s[at]);
  }

  /** Child `k` of a laid-out tree is laid out after the root and its elder siblings' spans. */
  lemma {:induction false} LaidChild(s: seq<Span>, at: nat, pl: Plan, parent: Option<nat>, k: nat, lo: nat)
    requires Laid(s, at, pl, parent)
    requires k < |pl.children| && lo == 1 + SizeAll(pl.children[..k])
    ensures Laid(s, at + lo, pl.children[k], Some(at))
  {
    assert LaidKey(0, s, at);
    var c := pl.children[k];
    LayoutChild(pl, at, parent, k, lo);
    ShapesOfSlice(s, at, at + Size(pl), lo, lo + Size(c), Layout(c, at + lo, Some(at)));
  }

  /** A slice of the shapes of `s[a..b]` is the shapes of the matching slice of `s`. */
  lemma {:induction false} ShapesOfSlice(s: seq<Span>, a: nat, b: nat, lo: nat, hi: nat, x: seq<Shape>)
    requires a <= b <= |s| && lo <= hi <= b - a && Shapes(s[a..b])[lo..hi] == x
    ensures Shapes(s[a + lo..a + hi]) == x
  {
    ShapesSlice(s[a..b], lo, hi);
    SliceOfSlice(s, a, b, lo, hi);
  }

  lemma {:induction false} SliceOfSlice<T>(s: seq<T>, a: nat, b: nat, lo: nat, hi: nat)
    requires a <= b <= |s| && lo <= hi <= b - a
    ensures s[a..b][lo..hi] == s[a + lo..a + hi]
  {
    forall i | 0 <= i < hi - lo ensures s[a..b][lo..hi][i] == s[a + lo..a + hi][i] {
      assert s[a..b][lo..hi][i] == s[a..b][lo + i] == s[a + lo + i];
    }
  }

  lemma {:induction false} ShapesSlice(ss: seq<Span>, lo: nat, hi: nat)
    requires lo <= hi <= |ss|
    ensures Shapes(ss)[lo..hi] == Shapes(ss[lo..hi])
  {
  }

  /** Always true; only the trigger by which the guarded predicates about the recorder going
      from `s0`, `l0` to `s1`, `l1` are opened. */
  ghost predicate WalkKey(n: nat, s0: seq<Span>, l0: seq<Event>, s1: seq<Span>, l1: seq<Event>) {
    true
  }

  /** A pre-order walk of `pl` below `parent` took the recorder from `s0`, `l0` to `s1`, `l1`.
      Kept behind a guard (`WalkKey`), so that the methods of a walk only
      pass it along; `WalkedIs` opens it. */
  ghost predicate Walked(s0: seq<Span>, l0: seq<Event>, s1: seq<Span>, l1: seq<Event>, pl: Plan, parent: Option<nat>) {
    forall n: nat {:trigger WalkKey(n, s0, l0, s1, l1)} :: WalkKey(n, s0, l0, s1, l1) ==> Appended(s0, l0, s1, l1, Layout(pl, |s0|, parent), Log(pl, |s0|))
  }

  /** The same for a walk over the trees of `pls` in order, all of them below `parent`. */
  ghost predicate WalkedAll(s0: seq<Span>, l0: seq<Event>, s1: seq<Span>, l1: seq<Event>, pls: seq<Plan>, parent: Option<nat>) {
    forall n: nat {:trigger WalkKey(n, s0, l0, s1, l1)} :: WalkKey(n, s0, l0, s1, l1) ==> Appended(s0, l0, s1, l1, LayoutAll(pls, |s0|, parent), LogAll(pls, |s0|))
  }

  lemma {:induction false} WalkedIs(s0: seq<Span>, l0: seq<Event>, s1: seq<Span>, l1: seq<Event>, pl: Plan, parent: Option<nat>)
    requires Walked(s0, l0, s1, l1, pl, parent)
    ensures Appended(s0, l0, s1, l1, Layout(pl, |s0|, parent), Log(pl, |s0|))
  {
    assert WalkKey(0, s0, l0, s1, l1);
  }

  lemma {:induction false} WalkedAllIs(s0: seq<Span>, l0: seq<Event>, s1: seq<Span>, l1: seq<Event>, pls: seq<Plan>, parent: Option<nat>)
    requires WalkedAll(s0, l0, s1, l1, pls, parent)
    ensures Appended(s0, l0, s1, l1, LayoutAll(pls, |s0|, parent), LogAll(pls, |s0|))
  {
    assert WalkKey(0, s0, l0, s1, l1);
  }

  /** Walking no trees changes nothing. */
  lemma {:induction false} WalkedNone(s: seq<Span>, l: seq<Event>, parent: Option<nat>)
    ensures WalkedAll(s, l, s, l, [], parent)
  {
    assert s[..|s|] == s && s[|s|..] == [] && l + [] == l;
  }

  /** Walking one more tree after a forest walks the longer forest. */
  lemma {:induction false} WalkedOneMore(s0: seq<Span>, l0: seq<Event>, s1: seq<Span>, l1: seq<Event>, s2: seq<Span>, l2: seq<Event>,
                      pls: seq<Plan>, pl: Plan, parent: Option<nat>)
    requires WalkedAll(s0, l0, s1, l1, pls, parent) && Walked(s1, l1, s2, l2, pl, parent)
    ensures WalkedAll(s0, l0, s2, l2, pls + [pl], parent)
  {
    WalkedAllIs(s0, l0, s1, l1, pls, parent);
    WalkedIs(s1, l1, s2, l2, pl, parent);
    var id := |s0|;
    assert (pls + [pl])[..|pls|] == pls;
    assert |s1| == id + SizeAll(pls) by {
      assert |Shapes(s1[id..])| == |s1| - id;
    }
    assert s2[..id] == s0 by {
      assert s2[..id] == s2[..|s1|][..id];
    }
    assert s2[id..] == s1[id..] + s2[|s1|..] by {
      assert s2[..|s1|] == s1;
    }
    ShapesAppend(s1[id..], s2[|s1|..]);
  }

  /** The step of a walk over a forest: after the first `k` trees, the walk of tree `k`. */
  lemma {:induction false} WalkedNext(s0: seq<Span>, l0: seq<Event>, s1: seq<Span>, l1: seq<Event>, s2: seq<Span>, l2: seq<Event>,
                   pls: seq<Plan>, k: nat, parent: Option<nat>)
    requires k < |pls|
    requires |s0| <= |s1| && s1[..|s0|] == s0 && |s1| <= |s2| && s2[..|s1|] == s1
    requires WalkedAll(s0, l0, s1, l1, pls[..k], parent) && Walked(s1, l1, s2, l2, pls[k], parent)
    ensures |s0| <= |s2| && s2[..|s0|] == s0
    ensures WalkedAll(s0, l0, s2, l2, pls[..k + 1], parent)
  {
    Extends(s1, s2, |s0|);
    WalkedOneMore(s0, l0, s1, l1, s2, l2, pls[..k], pls[k], parent);
    assert pls[..k] + [pls[k]] == pls[..k + 1];
  }

  /** A walk over all the trees of a forest's prefix `pls[..|pls|]`. */
  lemma {:induction false} WalkedWhole(s0: seq<Span>, l0: seq<Event>, s1: seq<Span>, l1: seq<Event>, pls: seq<Plan>, parent: Option<nat>)
    requires WalkedAll(s0, l0, s1, l1, pls[..|pls|], parent)
    ensures WalkedAll(s0, l0, s1, l1, pls, parent)
  {
    assert pls[..|pls|] == pls;
  }

  /** The events a span of the tree logs before its first child starts. */
  function Entry(pl: Plan, id: nat): seq<Event> {
    [Start(id)] + AttrEvents(id, pl.before) + (if pl.pause then [Pause(id)] else [])
  }

  /** The events of a tree's walk are its entry, its children's walk, its last attributes and its end. */
  lemma {:induction false} LogSteps(l0: seq<Event>, l1: seq<Event>, l2: seq<Event>, l3: seq<Event>, pl: Plan, id: nat)
    requires l1 == l0 + Entry(pl, id) && l2 == l1 + LogAll(pl.children, id + 1)
    requires l3 == l2 + AttrEvents(id, pl.after) + [End(id)]
    ensures l3 == l0 + Log(pl, id)
  {
  }

  /** The spans of a tree's walk are its root span followed by its children's spans. */
  lemma {:induction false} LayoutSteps(s1: seq<Span>, s2: seq<Span>, s3: seq<Span>, pl: Plan, id: nat, parent: Option<nat>)
    requires |s1| == id + 1 && id + 1 <= |s2| == |s3|
    requires Shapes(s2[|s1|..]) == LayoutAll(pl.children, id + 1, Some(id))
    requires ShapeOf(s3[id]) == Shape(pl.name, parent, FinalAttrs(pl)) && s3[id + 1..] == s2[id + 1..]
    ensures Shapes(s3[id..]) == Layout(pl, id, parent)
  {
    assert s3[id..] == [s3[id]] + s3[id + 1..];
    ShapesAppend([s3[id]], s3[id + 1..]);
  }

  /** The recorder went from `s0`, `l0` to `s1`, `l1` by opening the root span of `pl` below
      `parent`: one new span with the tree's name and first attributes, and the tree's entry
      events in the log. */
  ghost predicate Entered(s0: seq<Span>, l0: seq<Event>, s1: seq<Span>, l1: seq<Event>, pl: Plan, parent: Option<nat>) {
    && |s1| == |s0| + 1 && s1[..|s0|] == s0
    && ShapeOf(s1[|s0|]) == Shape(pl.name, parent, Attach(map[], pl.before))
    && l1 == l0 + Entry(pl, |s0|)
  }

  /** `Entered`, behind the guard. */
  ghost predicate Began(s0: seq<Span>, l0: seq<Event>, s1: seq<Span>, l1: seq<Event>, pl: Plan, parent: Option<nat>) {
    forall n: nat {:trigger WalkKey(n, s0, l0, s1, l1)} :: WalkKey(n, s0, l0, s1, l1) ==> Entered(s0, l0, s1, l1, pl, parent)
  }

  lemma {:induction false} BeganFrom(s0: seq<Span>, l0: seq<Event>, s1: seq<Span>, l1: seq<Event>, pl: Plan, parent: Option<nat>)
    requires Entered(s0, l0, s1, l1, pl, parent)
    ensures Began(s0, l0, s1, l1, pl, parent)
  {
  }

  /** Pausing once the first attributes are set completes the entry of a tree that pauses. */
  lemma {:induction false} BeganPaused(s0: seq<Span>, l0: seq<Event>, s1: seq<Span>, l1: seq<Event>, l2: seq<Event>, pl: Plan, parent: Option<nat>)
    requires pl.pause && Began(s0, l0, s1, l1, pl.(pause := false), parent)
    requires l2 == l1 + [Pause(|s0|)]
    ensures Began(s0, l0, s1, l2, pl, parent)
  {
    assert WalkKey(0, s0, l0, s1, l1);
  }

  /** The recorder went from `s2`, `l2` to `s3`, `l3` by closing span `id`, the root of `pl`:
      the tree's last attributes are set on it and it ends; no other span changes what it says. */
  ghost predicate Closing(s2: seq<Span>, l2: seq<Event>, s3: seq<Span>, l3: seq<Event>, pl: Plan, id: nat) {
    && id < |s2| == |s3|
    && s3[..id] == s2[..id] && s3[id + 1..] == s2[id + 1..]
    && ShapeOf(s3[id]) == ShapeOf(s2[id]).(attrs := Attach(s2[id].attrs, pl.after))
    && l3 == l2 + AttrEvents(id, pl.after) + [End(id)]
  }

  /** `Closing`, behind the guard. */
  ghost predicate Closed(s2: seq<Span>, l2: seq<Event>, s3: seq<Span>, l3: seq<Event>, pl: Plan, id: nat) {
    forall n: nat {:trigger WalkKey(n, s2, l2, s3, l3)} :: WalkKey(n, s2, l2, s3, l3) ==> Closing(s2, l2, s3, l3, pl, id)
  }

  lemma {:induction false} ClosedFrom(s2: seq<Span>, l2: seq<Event>, s3: seq<Span>, l3: seq<Event>, pl: Plan, id: nat)
    requires Closing(s2, l2, s3, l3, pl, id)
    ensures Closed(s2, l2, s3, l3, pl, id)
  {
  }

  /** The walk of a tree: its root span is opened, its children are walked below it, and it
      is closed; the spans and events are what the tree says. */
  lemma {:induction false} WalkedNode(s0: seq<Span>, l0: seq<Event>, s1: seq<Span>, l1: seq<Event>, s2: seq<Span>, l2: seq<Event>,
                   s3: seq<Span>, l3: seq<Event>, pl: Plan, parent: Option<nat>)
    requires Began(s0, l0, s1, l1, pl, parent)
    requires |s1| <= |s2| && s2[..|s1|] == s1
    requires WalkedAll(s1, l1, s2, l2, pl.children, Some(|s0|))
    requires Closed(s2, l2, s3, l3, pl, |s0|)
    ensures |s0| < |s3| && s3[..|s0|] == s0
    ensures Walked(s0, l0, s3, l3, pl, parent)
  {
    assert WalkKey(0, s0, l0, s1, l1) && WalkKey(0, s2, l2, s3, l3);
    var id := |s0|;
    assert Entered(s0, l0, s1, l1, pl, parent);
    assert Closing(s2, l2, s3, l3, pl, id);
    assert s2[..id] == s0 && s2[id] == s1[id] by {
      assert s2[..id] == s2[..|s1|][..id];
    }
    assert s3[..id] == s0;
    assert ShapeOf(s3[id]) == Shape(pl.name, parent, FinalAttrs(pl));
    WalkedAllIs(s1, l1, s2, l2, pl.children, Some(id));
    LayoutSteps(s1, s2, s3, pl, id, parent);
    LogSteps(l0, l1, l2, l3, pl, id);
  }

  /** A flush after a walk adds its event after the walk's. */
  lemma {:induction false} WalkedThenFlushed(s0: seq<Span>, l0: seq<Event>, s1: seq<Span>, l1: seq<Event>, l2: seq<Event>, pl: Plan, parent: Option<nat>)
    requires Walked(s0, l0, s1, l1, pl, parent) && l2 == l1 + [Flush]
    ensures Appended(s0, l0, s1, l2, Layout(pl, |s0|, parent), Log(pl, |s0|) + [Flush])
  {
    WalkedIs(s0, l0, s1, l1, pl, parent);
  }
}
