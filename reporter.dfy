/** The Honeycomb reporter's projection of a scan report onto spans: one `inspec-run` span,
    one child span per profile, per control and per result, each with its attributes. */
module Reporter {
  import Keys
  import opened Values
  import opened Tracer
  import opened Scan
  import opened SpanTree

  const ROOT_SPAN_NAME := "inspec-run"
  const DEFAULT_SERVICE_NAME := "inspec-honeycomb-reporter"
  const LOOPBACK := "127.0.0.1"

  // ---------------------------------------------------------------------------------------
  // Host facts

  /** OTEL_SERVICE_NAME when it is set (even to ""), the reporter's own name otherwise. */
  function ServiceName(host: Host): string {
    match host.serviceNameEnv
    case Some(name) => name
    case None => DEFAULT_SERVICE_NAME
  }

  /** get_ip_addresses: the host's addresses without the IPv4 loopback address. */
  function IpAddresses(addresses: seq<string>): (r: seq<string>)
    ensures forall a :: a in r <==> a in addresses && a != LOOPBACK
    ensures |r| <= |addresses|
  {
    if |addresses| == 0 then []
    else (if addresses[0] == LOOPBACK then [] else [addresses[0]]) + IpAddresses(addresses[1..])
  }

  /** Array#join. */
  function Join(parts: seq<string>, sep: string): string {
    if |parts| == 0 then ""
    else if |parts| == 1 then parts[0]
    else parts[0] + sep + Join(parts[1..], sep)
  }

  // ---------------------------------------------------------------------------------------
  // Span names and the attribute hashes handed to set_attributes, key by key in source order

  function ProfileSpanName(p: Profile): string {
    "profile: " + Text(p.name)
  }

  function ControlSpanName(c: Control): string {
    "control: " + Text(c.id)
  }

  function ResultSpanName(r: Result): string {
    "result: " + Text(r.codeDesc)
  }

  function RootPairs(report: ScanReport, host: Host): seq<(Keys.Key, Value)> {
    [ (Keys.ServiceName, Str(ServiceName(host))),
      (Keys.PlatformName, report.platform.name),
      (Keys.PlatformRelease, report.platform.release),
      (Keys.Version, report.version),
      (Keys.Hostname, Str(host.hostname)),
      (Keys.Arch, Str(host.arch)),
      (Keys.Os, Str(host.os)),
      (Keys.IpAddresses, Str(Join(IpAddresses(host.addresses), ","))) ]
  }

  /** Set on the root span once every profile has been processed: milliseconds. */
  function DurationPairs(report: ScanReport): seq<(Keys.Key, Value)> {
    [(Keys.Duration, Num(report.duration * 1000))]
  }

  function ProfilePairs(p: Profile): seq<(Keys.Key, Value)> {
    [ (Keys.ProfileName, p.name),
      (Keys.ProfileTitle, p.title),
      (Keys.ProfileVersion, p.version),
      (Keys.ProfileAttributes, Str(p.attributesJson)) ]
  }

  function ControlPairs(c: Control, p: Profile): seq<(Keys.Key, Value)> {
    [ (Keys.ControlName, c.name),
      (Keys.ControlId, c.id),
      (Keys.ControlDesc, c.desc),
      (Keys.ControlImpact, Num(c.impact)),
      (Keys.ProfileName, p.name),
      (Keys.ProfileTitle, p.title),
      (Keys.ProfileVersion, p.version) ]
  }

  function ResultPairs(r: Result, c: Control, p: Profile): seq<(Keys.Key, Value)> {
    [ (Keys.ResultStatus, r.status),
      (Keys.ResultCodeDesc, r.codeDesc),
      (Keys.ResultRunTime, Num(r.runTime)),
      (Keys.ControlName, c.name),
      (Keys.ControlId, c.id),
      (Keys.ProfileName, p.name),
      (Keys.ProfileTitle, p.title),
      (Keys.ProfileVersion, p.version) ]
  }

  // ---------------------------------------------------------------------------------------
  // The span tree a report is meant to become

  function ResultPlan(r: Result, c: Control, p: Profile): Plan {
    Plan(ResultSpanName(r), ResultPairs(r, c, p), false, [], [])
  }

  function ResultPlans(rs: seq<Result>, c: Control, p: Profile): (r: seq<Plan>)
    ensures |r| == |rs|
    decreases |rs|
  {
    if |rs| == 0 then [] else ResultPlans(rs[..|rs| - 1], c, p) + [ResultPlan(rs[|rs| - 1], c, p)]
  }

  lemma {:induction false} ResultPlansPrefix(rs: seq<Result>, c: Control, p: Profile, n: nat)
    requires n <= |rs|
    ensures ResultPlans(rs, c, p)[..n] == ResultPlans(rs[..n], c, p)
    decreases |rs|
  {
    if n < |rs| {
      var init := rs[..|rs| - 1];
      ResultPlansPrefix(init, c, p, n);
      assert init[..n] == rs[..n];
    } else {
      assert rs[..n] == rs;
    }
  }

  lemma {:induction false} ResultPlansAt(rs: seq<Result>, c: Control, p: Profile, m: nat)
    requires m < |rs|
    ensures ResultPlans(rs, c, p)[m] == ResultPlan(rs[m], c, p)
  {
    ResultPlansPrefix(rs, c, p, m + 1);
    assert rs[..m + 1][..m] == rs[..m];
  }

  /** A control's span pauses once its attributes are set, before its results. */
  function ControlPlan(c: Control, p: Profile): Plan {
    Plan(ControlSpanName(c), ControlPairs(c, p), true, ResultPlans(c.results, c, p), [])
  }

  function ControlPlans(cs: seq<Control>, p: Profile): (r: seq<Plan>)
    ensures |r| == |cs|
    decreases |cs|
  {
    if |cs| == 0 then [] else ControlPlans(cs[..|cs| - 1], p) + [ControlPlan(cs[|cs| - 1], p)]
  }

  lemma {:induction false} ControlPlansPrefix(cs: seq<Control>, p: Profile, n: nat)
    requires n <= |cs|
    ensures ControlPlans(cs, p)[..n] == ControlPlans(cs[..n], p)
    decreases |cs|
  {
    if n < |cs| {
      var init := cs[..|cs| - 1];
      ControlPlansPrefix(init, p, n);
      assert init[..n] == cs[..n];
    } else {
      assert cs[..n] == cs;
    }
  }

  lemma {:induction false} ControlPlansAt(cs: seq<Control>, p: Profile, j: nat)
    requires j < |cs|
    ensures ControlPlans(cs, p)[j] == ControlPlan(cs[j], p)
  {
    ControlPlansPrefix(cs, p, j + 1);
    assert cs[..j + 1][..j] == cs[..j];
  }

  function ProfilePlan(p: Profile): Plan {
    Plan(ProfileSpanName(p), ProfilePairs(p), false, ControlPlans(p.controls, p), [])
  }

  function ProfilePlans(ps: seq<Profile>): (r: seq<Plan>)
    ensures |r| == |ps|
    decreases |ps|
  {
    if |ps| == 0 then [] else ProfilePlans(ps[..|ps| - 1]) + [ProfilePlan(ps[|ps| - 1])]
  }

  lemma {:induction false} ProfilePlansPrefix(ps: seq<Profile>, n: nat)
    requires n <= |ps|
    ensures ProfilePlans(ps)[..n] == ProfilePlans(ps[..n])
    decreases |ps|
  {
    if n < |ps| {
      var init := ps[..|ps| - 1];
      ProfilePlansPrefix(init, n);
      assert init[..n] == ps[..n];
    } else {
      assert ps[..n] == ps;
    }
  }

  lemma {:induction false} ProfilePlansAt(ps: seq<Profile>, k: nat)
    requires k < |ps|
    ensures ProfilePlans(ps)[k] == ProfilePlan(ps[k])
  {
    ProfilePlansPrefix(ps, k + 1);
    assert ps[..k + 1][..k] == ps[..k];
  }

  /** The root span gets its duration once all the profiles are done. */
  function RunPlan(report: ScanReport, host: Host): Plan {
    Plan(ROOT_SPAN_NAME, RootPairs(report, host), false, ProfilePlans(report.profiles), DurationPairs(report))
  }

  // ---------------------------------------------------------------------------------------
  // The reporter

  /** set_attributes on the current span. */
  method SetAttributes(t: Recorder, ps: seq<(Keys.Key, Value)>)
    requires t.Valid() && t.open != []
    modifies t
    ensures t.Valid() && t.open == old(t.open)
    ensures var top := old(t.open)[|old(t.open)| - 1];
      && t.spans == old(t.spans)[top := old(t.spans)[top].(attrs := Attach(old(t.spans)[top].attrs, ps))]
      && t.log == old(t.log) + AttrEvents(top, ps)
  {
    ghost var top := t.open[|t.open| - 1];
    var i := 0;
    while i < |ps|
      invariant 0 <= i <= |ps|
      invariant t.Valid() && t.open == old(t.open)
      invariant t.spans == old(t.spans)[top := old(t.spans)[top].(attrs := Attach(old(t.spans)[top].attrs, ps[..i]))]
      invariant t.log == old(t.log) + AttrEvents(top, ps[..i])
    {
      var (key, value) := ps[i];
      if value != Nil {
        t.SetAttribute(key, Sanitize(value));
      }
      assert ps[..i + 1][..i] == ps[..i];
      i := i + 1;
    }
    assert ps[..|ps|] == ps;
  }

  /** in_span followed by set_attributes on the new span: how every span of the walk is
      opened, as the root of the tree `pl` says. */
  method EnterSpan(t: Recorder, name: string, ps: seq<(Keys.Key, Value)>, ghost pl: Plan) returns (id: nat)
    requires t.Valid() && name == pl.name && ps == pl.before && !pl.pause
    modifies t
    ensures t.Valid() && t.open == old(t.open) + [id]
    ensures id == |old(t.spans)|
    ensures Began(old(t.spans), old(t.log), t.spans, t.log, pl, old(t.Current()))
  {
    id := t.StartSpan(name);
    SetAttributes(t, ps);
    assert t.spans[..id] == old(t.spans);
    BeganFrom(old(t.spans), old(t.log), t.spans, t.log, pl, old(t.Current()));
  }

  /** Leaving the in_span block of span `id`, the current one, the root of a tree that sets
      no attribute at the end: the span ends. */
  method Leave(t: Recorder, id: nat, ghost pl: Plan)
    requires t.Valid() && t.open != [] && t.open[|t.open| - 1] == id && pl.after == []
    modifies t
    ensures t.Valid() && t.open == old(t.open)[..|old(t.open)| - 1]
    ensures Closed(old(t.spans), old(t.log), t.spans, t.log, pl, id)
  {
    t.EndSpan();
    assert t.spans[..id] == old(t.spans)[..id] && t.spans[id + 1..] == old(t.spans)[id + 1..];
    ClosedFrom(old(t.spans), old(t.log), t.spans, t.log, pl, id);
  }

  /** process_result: one span for the result, child of the current span. */
  method ProcessResult(t: Recorder, r: Result, c: Control, p: Profile)
    requires t.Valid()
    modifies t
    ensures t.Valid() && t.open == old(t.open)
    ensures |old(t.spans)| <= |t.spans| && t.spans[..|old(t.spans)|] == old(t.spans)
    ensures Walked(old(t.spans), old(t.log), t.spans, t.log, ResultPlan(r, c, p), old(t.Current()))
  {
    ghost var pl := ResultPlan(r, c, p);
    ghost var s0, l0 := t.spans, t.log;
    var id := EnterSpan(t, ResultSpanName(r), ResultPairs(r, c, p), pl);
    ghost var s1, l1 := t.spans, t.log;
    WalkedNone(s1, l1, Some(id));
    Leave(t, id, pl);
    WalkedNode(s0, l0, s1, l1, s1, l1, t.spans, t.log, pl, old(t.Current()));
  }

  /** control.results.each: process_result on every result, in order, below the current span. */
  method ProcessResults(t: Recorder, rs: seq<Result>, c: Control, p: Profile)
    requires t.Valid()
    modifies t
    ensures t.Valid() && t.open == old(t.open)
    ensures |old(t.spans)| <= |t.spans| && t.spans[..|old(t.spans)|] == old(t.spans)
    ensures WalkedAll(old(t.spans), old(t.log), t.spans, t.log, ResultPlans(rs, c, p), old(t.Current()))
  {
    ghost var s0, l0, plans := t.spans, t.log, ResultPlans(rs, c, p);
    WalkedNone(s0, l0, t.Current());
    var m := 0;
    while m < |rs|
      invariant 0 <= m <= |rs|
      invariant t.Valid() && t.open == old(t.open)
      invariant |s0| <= |t.spans| && t.spans[..|s0|] == s0
      invariant WalkedAll(s0, l0, t.spans, t.log, plans[..m], old(t.Current()))
    {
      ghost var before, logged := t.spans, t.log;
      ProcessResult(t, rs[m], c, p);
      ResultPlansAt(rs, c, p, m);
      WalkedNext(s0, l0, before, logged, t.spans, t.log, plans, m, old(t.Current()));
      m := m + 1;
    }
    WalkedWhole(s0, l0, t.spans, t.log, plans, old(t.Current()));
  }

  /** process_control: a span for the control, the pause, then one span per result inside it. */
  method ProcessControl(t: Recorder, c: Control, p: Profile)
    requires t.Valid()
    modifies t
    ensures t.Valid() && t.open == old(t.open)
    ensures |old(t.spans)| <= |t.spans| && t.spans[..|old(t.spans)|] == old(t.spans)
    ensures Walked(old(t.spans), old(t.log), t.spans, t.log, ControlPlan(c, p), old(t.Current()))
  {
    ghost var pl := ControlPlan(c, p);
    ghost var s0, l0 := t.spans, t.log;
    var id := EnterSpan(t, ControlSpanName(c), ControlPairs(c, p), pl.(pause := false));
    ghost var entered := t.log;
    t.Sleep();
    ghost var s1, l1 := t.spans, t.log;
    BeganPaused(s0, l0, s1, entered, l1, pl, old(t.Current()));
    ProcessResults(t, c.results, c, p);
    ghost var s2, l2 := t.spans, t.log;
    Leave(t, id, pl);
    WalkedNode(s0, l0, s1, l1, s2, l2, t.spans, t.log, pl, old(t.Current()));
  }

  /** profile.controls.each: process_control on every control, in order, below the current span. */
  method ProcessControls(t: Recorder, cs: seq<Control>, p: Profile)
    requires t.Valid()
    modifies t
    ensures t.Valid() && t.open == old(t.open)
    ensures |old(t.spans)| <= |t.spans| && t.spans[..|old(t.spans)|] == old(t.spans)
    ensures WalkedAll(old(t.spans), old(t.log), t.spans, t.log, ControlPlans(cs, p), old(t.Current()))
  {
    ghost var s0, l0, plans := t.spans, t.log, ControlPlans(cs, p);
    WalkedNone(s0, l0, t.Current());
    var j := 0;
    while j < |cs|
      invariant 0 <= j <= |cs|
      invariant t.Valid() && t.open == old(t.open)
      invariant |s0| <= |t.spans| && t.spans[..|s0|] == s0
      invariant WalkedAll(s0, l0, t.spans, t.log, plans[..j], old(t.Current()))
    {
      ghost var before, logged := t.spans, t.log;
      ProcessControl(t, cs[j], p);
      ControlPlansAt(cs, p, j);
      WalkedNext(s0, l0, before, logged, t.spans, t.log, plans, j, old(t.Current()));
      j := j + 1;
    }
    WalkedWhole(s0, l0, t.spans, t.log, plans, old(t.Current()));
  }

  /** process_profile: a span for the profile and, inside it, its controls in order. */
  method ProcessProfile(t: Recorder, p: Profile)
    requires t.Valid()
    modifies t
    ensures t.Valid() && t.open == old(t.open)
    ensures |old(t.spans)| <= |t.spans| && t.spans[..|old(t.spans)|] == old(t.spans)
    ensures Walked(old(t.spans), old(t.log), t.spans, t.log, ProfilePlan(p), old(t.Current()))
  {
    ghost var pl := ProfilePlan(p);
    ghost var s0, l0 := t.spans, t.log;
    var id := EnterSpan(t, ProfileSpanName(p), ProfilePairs(p), pl);
    ghost var s1, l1 := t.spans, t.log;
    ProcessControls(t, p.controls, p);
    ghost var s2, l2 := t.spans, t.log;
    Leave(t, id, pl);
    WalkedNode(s0, l0, s1, l1, s2, l2, t.spans, t.log, pl, old(t.Current()));
  }

  /** report.profiles.each: process_profile on every profile, in order, below the current span. */
  method ProcessProfiles(t: Recorder, ps: seq<Profile>)
    requires t.Valid()
    modifies t
    ensures t.Valid() && t.open == old(t.open)
    ensures |old(t.spans)| <= |t.spans| && t.spans[..|old(t.spans)|] == old(t.spans)
    ensures WalkedAll(old(t.spans), old(t.log), t.spans, t.log, ProfilePlans(ps), old(t.Current()))
  {
    ghost var s0, l0, plans := t.spans, t.log, ProfilePlans(ps);
    WalkedNone(s0, l0, t.Current());
    var k := 0;
    while k < |ps|
      invariant 0 <= k <= |ps|
      invariant t.Valid() && t.open == old(t.open)
      invariant |s0| <= |t.spans| && t.spans[..|s0|] == s0
      invariant WalkedAll(s0, l0, t.spans, t.log, plans[..k], old(t.Current()))
    {
      ghost var before, logged := t.spans, t.log;
      ProcessProfile(t, ps[k]);
      ProfilePlansAt(ps, k);
      WalkedNext(s0, l0, before, logged, t.spans, t.log, plans, k, old(t.Current()));
      k := k + 1;
    }
    WalkedWhole(s0, l0, t.spans, t.log, plans, old(t.Current()));
  }

  /** The end of report's in_span block: the last attributes of the root span (the duration)
      are set and the span ends; every span after the root has already ended by then. */
  method FinishRun(t: Recorder, root: nat, ps: seq<(Keys.Key, Value)>, ghost pl: Plan)
    requires t.Valid() && t.open != [] && t.open[|t.open| - 1] == root && ps == pl.after
    modifies t
    ensures t.Valid() && t.open == old(t.open)[..|old(t.open)| - 1]
    ensures Closed(old(t.spans), old(t.log), t.spans, t.log, pl, root)
    ensures |t.spans| == |old(t.spans)| && root < |t.spans|
    ensures |t.log| == |old(t.log)| + |AttrEvents(root, ps)| + 1
    ensures t.spans[root].end == Some(|t.log| - 1)
    ensures forall i :: root < i < |t.spans| ==> t.spans[i].end.Some? && t.spans[i].end.value < |old(t.log)|
  {
    LaterSpansEnded(t.spans, t.open, t.log);
    SetAttributes(t, ps);
    t.EndSpan();
    assert t.spans[..root] == old(t.spans)[..root] && t.spans[root + 1..] == old(t.spans)[root + 1..];
    ClosedFrom(old(t.spans), old(t.log), t.spans, t.log, pl, root);
    forall i | root < i < |t.spans| ensures t.spans[i] == old(t.spans)[i] {
      assert t.spans[i] == t.spans[root + 1..][i - root - 1];
    }
  }

  /** The in_span block of report: the root span with the run's attributes, the profiles
      inside it, and the duration attribute once they are all done. */
  method RunSpan(t: Recorder, report: ScanReport, host: Host)
    requires t.Valid()
    modifies t
    ensures t.Valid() && t.open == old(t.open)
    ensures |old(t.spans)| < |t.spans| && t.spans[..|old(t.spans)|] == old(t.spans)
    ensures Walked(old(t.spans), old(t.log), t.spans, t.log, RunPlan(report, host), old(t.Current()))
    ensures var root := |old(t.spans)|;
      && t.spans[root].end == Some(|t.log| - 1)
      && forall i :: root < i < |t.spans| ==> t.spans[i].end.Some? && t.spans[i].end.value < |t.log| - 2
  {
    ghost var pl := RunPlan(report, host);
    ghost var s0, l0 := t.spans, t.log;
    var root := EnterSpan(t, ROOT_SPAN_NAME, RootPairs(report, host), pl);
    ghost var s1, l1 := t.spans, t.log;
    ProcessProfiles(t, report.profiles);
    ghost var s2, l2 := t.spans, t.log;
    FinishRun(t, root, DurationPairs(report), pl);
    WalkedNode(s0, l0, s1, l1, s2, l2, t.spans, t.log, pl, old(t.Current()));
  }

  /** report: the root span's block, then the flush; the report itself is handed back. */
  method Report(t: Recorder, report: ScanReport, host: Host) returns (r: ScanReport)
    requires t.Valid()
    modifies t
    ensures r == report
    ensures t.Valid() && t.open == old(t.open)
    ensures Appended(old(t.spans), old(t.log), t.spans, t.log,
      Layout(RunPlan(report, host), |old(t.spans)|, old(t.Current())), Log(RunPlan(report, host), |old(t.spans)|) + [Flush])
    ensures Laid(t.spans, |old(t.spans)|, RunPlan(report, host), old(t.Current()))
    ensures |t.spans| == |old(t.spans)| + Size(RunPlan(report, host))
    ensures var root := |old(t.spans)|;
      && root < |t.spans| && t.spans[root].end == Some(|t.log| - 2)
      && forall i :: root < i < |t.spans| ==> t.spans[i].end.Some? && t.spans[i].end.value < |t.log| - 3
  {
    ghost var s0, l0 := t.spans, t.log;
    RunSpan(t, report, host);
    ghost var l1 := t.log;
    t.ForceFlush();
    WalkedThenFlushed(s0, l0, t.spans, l1, t.log, RunPlan(report, host), old(t.Current()));
    AppendedLaid(s0, l0, t.spans, t.log, RunPlan(report, host), old(t.Current()), Log(RunPlan(report, host), |s0|) + [Flush]);
    r := report;
  }
}
