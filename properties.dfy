/** What a report becomes, stated in the report's own terms: how many spans, where each
    profile, control and result span sits, its name, its parent and its attributes, and what
    the event log says about pauses and about the end of the run. */
module ReporterProperties {
  import Keys
  import opened Values
  import opened Tracer
  import opened Scan
  import opened SpanTree
  import opened Reporter

  // ---------------------------------------------------------------------------------------
  // Counting in the report's terms

  /** The number of results of a list of controls. */
  function ResultTotal(cs: seq<Control>): nat {
    if |cs| == 0 then 0 else ResultTotal(cs[..|cs| - 1]) + |cs[|cs| - 1].results|
  }

  /** The number of controls of a list of profiles. */
  function ControlTotal(ps: seq<Profile>): nat {
    if |ps| == 0 then 0 else ControlTotal(ps[..|ps| - 1]) + |ps[|ps| - 1].controls|
  }

  /** The number of results of a list of profiles. */
  function ProfileResultTotal(ps: seq<Profile>): nat {
    if |ps| == 0 then 0 else ProfileResultTotal(ps[..|ps| - 1]) + ResultTotal(ps[|ps| - 1].controls)
  }

  lemma {:induction false} ResultPlansSize(rs: seq<Result>, c: Control, p: Profile)
    ensures SizeAll(ResultPlans(rs, c, p)) == |rs|
    ensures PausesAll(ResultPlans(rs, c, p)) == 0
    decreases |rs|
  {
    if |rs| > 0 {
      var n := |rs| - 1;
      assert ResultPlans(rs, c, p)[..n] == ResultPlans(rs[..n], c, p);
      assert ResultPlans(rs, c, p)[n].children == [];
      assert Size(ResultPlans(rs, c, p)[n]) == 1 + SizeAll([]) == 1;
      assert Pauses(ResultPlans(rs, c, p)[n]) == PausesAll([]) == 0;
      ResultPlansSize(rs[..n], c, p);
    }
  }

  lemma {:induction false} ControlPlansSize(cs: seq<Control>, p: Profile)
    ensures SizeAll(ControlPlans(cs, p)) == |cs| + ResultTotal(cs)
    ensures PausesAll(ControlPlans(cs, p)) == |cs|
    decreases |cs|
  {
    if |cs| > 0 {
      var n := |cs| - 1;
      assert ControlPlans(cs, p)[..n] == ControlPlans(cs[..n], p);
      ControlPlansSize(cs[..n], p);
      ResultPlansSize(cs[n].results, cs[n], p);
    }
  }

  lemma {:induction false} ProfilePlansSize(ps: seq<Profile>)
    ensures SizeAll(ProfilePlans(ps)) == |ps| + ControlTotal(ps) + ProfileResultTotal(ps)
    ensures PausesAll(ProfilePlans(ps)) == ControlTotal(ps)
    decreases |ps|
  {
    if |ps| > 0 {
      var n := |ps| - 1;
      assert ProfilePlans(ps)[..n] == ProfilePlans(ps[..n]);
      ProfilePlansSize(ps[..n]);
      ControlPlansSize(ps[n].controls, ps[n]);
    }
  }

  /** One span for the run, one per profile, one per control and one per result; one pause
      per control. */
  lemma {:induction false} SpanCount(report: ScanReport, host: Host)
    ensures var ps := report.profiles;
      Size(RunPlan(report, host)) == 1 + |ps| + ControlTotal(ps) + ProfileResultTotal(ps)
    ensures Pauses(RunPlan(report, host)) == ControlTotal(report.profiles)
  {
    ProfilePlansSize(report.profiles);
  }

  // ---------------------------------------------------------------------------------------
  // Where each span sits, counted from the run's span

  /** Profile `k`'s span comes after the run's span and after all the spans of the profiles
      before it. */
  function ProfileOffset(ps: seq<Profile>, k: nat): nat
    requires k <= |ps|
  {
    1 + k + ControlTotal(ps[..k]) + ProfileResultTotal(ps[..k])
  }

  /** Control `j`'s span comes after its profile's span and the spans of the controls before it. */
  function ControlOffset(cs: seq<Control>, j: nat): nat
    requires j <= |cs|
  {
    1 + j + ResultTotal(cs[..j])
  }

  lemma {:induction false} ProfileOffsetIs(ps: seq<Profile>, k: nat)
    requires k <= |ps|
    ensures 1 + SizeAll(ProfilePlans(ps)[..k]) == ProfileOffset(ps, k)
  {
    ProfilePlansPrefix(ps, k);
    ProfilePlansSize(ps[..k]);
  }

  lemma {:induction false} ControlOffsetIs(cs: seq<Control>, p: Profile, j: nat)
    requires j <= |cs|
    ensures 1 + SizeAll(ControlPlans(cs, p)[..j]) == ControlOffset(cs, j)
  {
    ControlPlansPrefix(cs, p, j);
    ControlPlansSize(cs[..j], p);
  }

  lemma {:induction false} ResultOffsetIs(rs: seq<Result>, c: Control, p: Profile, m: nat)
    requires m <= |rs|
    ensures 1 + SizeAll(ResultPlans(rs, c, p)[..m]) == 1 + m
  {
    ResultPlansPrefix(rs, c, p, m);
    ResultPlansSize(rs[..m], c, p);
  }

  // ---------------------------------------------------------------------------------------
  // Names, parents and attributes of the spans of a run's tree

  /** No hash literal of the reporter names a key twice. */
  lemma {:induction false} RootPairsDistinct(report: ScanReport, host: Host)
    ensures DistinctKeys(RootPairs(report, host) + DurationPairs(report))
  {
  }

  lemma {:induction false} ProfilePairsDistinct(p: Profile)
    ensures DistinctKeys(ProfilePairs(p))
  {
  }

  lemma {:induction false} ControlPairsDistinct(c: Control, p: Profile)
    ensures DistinctKeys(ControlPairs(c, p))
  {
  }

  lemma {:induction false} ResultPairsDistinct(r: Result, c: Control, p: Profile)
    ensures DistinctKeys(ResultPairs(r, c, p))
  {
  }

  /** An entry of the hash, as the span carries it. */
  lemma {:induction false} CarriesEntry(attrs: map<Keys.Key, Attribute>, ps: seq<(Keys.Key, Value)>, i: nat, k: Keys.Key, v: Value)
    requires CarriesAll(attrs, ps) && i < |ps| && ps[i] == (k, v)
    ensures Carries(attrs, k, v)
  {
  }

  /** What the spans of the tree carry once they have ended. */
  lemma {:induction false} RunAttrs(report: ScanReport, host: Host)
    ensures CarriesAll(FinalAttrs(RunPlan(report, host)), RootPairs(report, host) + DurationPairs(report))
    ensures Carries(FinalAttrs(RunPlan(report, host)), Keys.Duration, Num(report.duration * 1000))
  {
    var ps := RootPairs(report, host) + DurationPairs(report);
    RootPairsDistinct(report, host);
    AttachConcat(map[], RootPairs(report, host), DurationPairs(report));
    AttachCarries(ps);
    CarriesEntry(FinalAttrs(RunPlan(report, host)), ps, 8, Keys.Duration, Num(report.duration * 1000));
  }

  lemma {:induction false} ProfileAttrs(p: Profile)
    ensures CarriesAll(FinalAttrs(ProfilePlan(p)), ProfilePairs(p))
  {
    ProfilePairsDistinct(p);
    AttachCarries(ProfilePairs(p));
  }

  /** A control's span carries its profile's name, title and version as well as its own entries. */
  lemma {:induction false} ControlAttrs(c: Control, p: Profile)
    ensures CarriesAll(FinalAttrs(ControlPlan(c, p)), ControlPairs(c, p))
    ensures var a := FinalAttrs(ControlPlan(c, p));
      Carries(a, Keys.ProfileName, p.name) && Carries(a, Keys.ProfileTitle, p.title) && Carries(a, Keys.ProfileVersion, p.version)
  {
    var ps, a := ControlPairs(c, p), FinalAttrs(ControlPlan(c, p));
    ControlPairsDistinct(c, p);
    AttachCarries(ps);
    CarriesEntry(a, ps, 4, Keys.ProfileName, p.name);
    CarriesEntry(a, ps, 5, Keys.ProfileTitle, p.title);
    CarriesEntry(a, ps, 6, Keys.ProfileVersion, p.version);
  }

  /** A result's span carries its control's name and id and its profile's name, title and
      version as well as its own entries. */
  lemma {:induction false} ResultAttrs(r: Result, c: Control, p: Profile)
    ensures CarriesAll(FinalAttrs(ResultPlan(r, c, p)), ResultPairs(r, c, p))
    ensures var a := FinalAttrs(ResultPlan(r, c, p));
      && Carries(a, Keys.ControlName, c.name) && Carries(a, Keys.ControlId, c.id)
      && Carries(a, Keys.ProfileName, p.name) && Carries(a, Keys.ProfileTitle, p.title) && Carries(a, Keys.ProfileVersion, p.version)
  {
    var ps, a := ResultPairs(r, c, p), FinalAttrs(ResultPlan(r, c, p));
    ResultPairsDistinct(r, c, p);
    AttachCarries(ps);
    CarriesEntry(a, ps, 3, Keys.ControlName, c.name);
    CarriesEntry(a, ps, 4, Keys.ControlId, c.id);
    CarriesEntry(a, ps, 5, Keys.ProfileName, p.name);
    CarriesEntry(a, ps, 6, Keys.ProfileTitle, p.title);
    CarriesEntry(a, ps, 7, Keys.ProfileVersion, p.version);
  }

  // ---------------------------------------------------------------------------------------
  // Where the subtrees of a run are laid out

  /** Profile `k`'s tree is laid out `ProfileOffset(ps, k)` spans after the run's span. */
  lemma {:induction false} ProfileLaid(s: seq<Span>, at: nat, run: Plan, ps: seq<Profile>, parent: Option<nat>, k: nat)
    requires Laid(s, at, run, parent) && run.children == ProfilePlans(ps) && k < |ps|
    ensures Laid(s, at + ProfileOffset(ps, k), ProfilePlan(ps[k]), Some(at))
  {
    ProfilePlansAt(ps, k);
    ProfileOffsetIs(ps, k);
    LaidChild(s, at, run, parent, k, ProfileOffset(ps, k));
  }

  /** Control `j`'s tree is laid out `ControlOffset(p.controls, j)` spans after its profile's span. */
  lemma {:induction false} ControlLaid(s: seq<Span>, at: nat, p: Profile, parent: Option<nat>, j: nat)
    requires Laid(s, at, ProfilePlan(p), parent) && j < |p.controls|
    ensures Laid(s, at + ControlOffset(p.controls, j), ControlPlan(p.controls[j], p), Some(at))
  {
    ControlPlansAt(p.controls, p, j);
    ControlOffsetIs(p.controls, p, j);
    LaidChild(s, at, ProfilePlan(p), parent, j, ControlOffset(p.controls, j));
  }

  /** Result `m`'s span comes `1 + m` spans after its control's span. */
  lemma {:induction false} ResultLaid(s: seq<Span>, at: nat, c: Control, p: Profile, parent: Option<nat>, m: nat)
    requires Laid(s, at, ControlPlan(c, p), parent) && m < |c.results|
    ensures Laid(s, at + 1 + m, ResultPlan(c.results[m], c, p), Some(at))
  {
    ResultPlansAt(c.results, c, p, m);
    ResultOffsetIs(c.results, c, p, m);
    LaidChild(s, at, ControlPlan(c, p), parent, m, 1 + m);
  }

  // ---------------------------------------------------------------------------------------
  // The spans of a run

  /** The run's span: "inspec-run", below the span that was current when the report came. */
  lemma {:induction false} ReportedRun(s: seq<Span>, at: nat, report: ScanReport, host: Host, parent: Option<nat>)
    requires Laid(s, at, RunPlan(report, host), parent)
    ensures at < |s| && ShapeOf(s[at]) == Shape(ROOT_SPAN_NAME, parent, FinalAttrs(RunPlan(report, host)))
  {
    LaidRoot(s, at, RunPlan(report, host), parent);
  }

  /** Span of profile `k`: "profile: " and the profile's name, below the run's span. */
  lemma {:induction false} ReportedProfile(s: seq<Span>, at: nat, report: ScanReport, host: Host, parent: Option<nat>, k: nat)
    requires Laid(s, at, RunPlan(report, host), parent) && k < |report.profiles|
    ensures var p, pi := report.profiles[k], at + ProfileOffset(report.profiles, k);
      pi < |s| && ShapeOf(s[pi]) == Shape(ProfileSpanName(p), Some(at), FinalAttrs(ProfilePlan(p)))
  {
    var ps := report.profiles;
    ProfileLaid(s, at, RunPlan(report, host), ps, parent, k);
    LaidRoot(s, at + ProfileOffset(ps, k), ProfilePlan(ps[k]), Some(at));
  }

  /** Span of control `j` of profile `k`: "control: " and the control's id, below the profile's span. */
  lemma {:induction false} ReportedControl(s: seq<Span>, at: nat, report: ScanReport, host: Host, parent: Option<nat>, k: nat, j: nat)
    requires Laid(s, at, RunPlan(report, host), parent)
    requires k < |report.profiles| && j < |report.profiles[k].controls|
    ensures var p := report.profiles[k];
      var pi := at + ProfileOffset(report.profiles, k);
      var ci := pi + ControlOffset(p.controls, j);
      ci < |s| && ShapeOf(s[ci]) == Shape(ControlSpanName(p.controls[j]), Some(pi), FinalAttrs(ControlPlan(p.controls[j], p)))
  {
    ProfileLaid(s, at, RunPlan(report, host), report.profiles, parent, k);
    ControlRoot(s, at + ProfileOffset(report.profiles, k), report.profiles[k], Some(at), j);
  }

  /** Span of result `m` of control `j` of profile `k`: "result: " and the result's code_desc,
      below the control's span. */
  lemma {:induction false} ReportedResult(s: seq<Span>, at: nat, report: ScanReport, host: Host, parent: Option<nat>, k: nat, j: nat, m: nat)
    requires Laid(s, at, RunPlan(report, host), parent)
    requires k < |report.profiles| && j < |report.profiles[k].controls| && m < |report.profiles[k].controls[j].results|
    ensures var p := report.profiles[k];
      var c := p.controls[j];
      var ci := at + ProfileOffset(report.profiles, k) + ControlOffset(p.controls, j);
      ci + 1 + m < |s| && ShapeOf(s[ci + 1 + m]) == Shape(ResultSpanName(c.results[m]), Some(ci), FinalAttrs(ResultPlan(c.results[m], c, p)))
  {
    ProfileLaid(s, at, RunPlan(report, host), report.profiles, parent, k);
    ControlResultRoot(s, at + ProfileOffset(report.profiles, k), report.profiles[k], Some(at), j, m);
  }

  /** The span of control `j` of a laid-out profile. */
  lemma {:induction false} ControlRoot(s: seq<Span>, pi: nat, p: Profile, parent: Option<nat>, j: nat)
    requires Laid(s, pi, ProfilePlan(p), parent) && j < |p.controls|
    ensures var ci := pi + ControlOffset(p.controls, j);
      ci < |s| && ShapeOf(s[ci]) == Shape(ControlSpanName(p.controls[j]), Some(pi), FinalAttrs(ControlPlan(p.controls[j], p)))
  {
    ControlLaid(s, pi, p, parent, j);
    LaidRoot(s, pi + ControlOffset(p.controls, j), ControlPlan(p.controls[j], p), Some(pi));
  }

  /** The span of result `m` of control `j` of a laid-out profile. */
  lemma {:induction false} ControlResultRoot(s: seq<Span>, pi: nat, p: Profile, parent: Option<nat>, j: nat, m: nat)
    requires Laid(s, pi, ProfilePlan(p), parent) && j < |p.controls| && m < |p.controls[j].results|
    ensures var c := p.controls[j];
      var ci := pi + ControlOffset(p.controls, j);
      ci + 1 + m < |s| && ShapeOf(s[ci + 1 + m]) == Shape(ResultSpanName(c.results[m]), Some(ci), FinalAttrs(ResultPlan(c.results[m], c, p)))
  {
    ControlLaid(s, pi, p, parent, j);
    ResultRoot(s, pi + ControlOffset(p.controls, j), p.controls[j], p, Some(pi), m);
  }

  /** The span of result `m` of a laid-out control. */
  lemma {:induction false} ResultRoot(s: seq<Span>, ci: nat, c: Control, p: Profile, parent: Option<nat>, m: nat)
    requires Laid(s, ci, ControlPlan(c, p), parent) && m < |c.results|
    ensures ci + 1 + m < |s| && ShapeOf(s[ci + 1 + m]) == Shape(ResultSpanName(c.results[m]), Some(ci), FinalAttrs(ResultPlan(c.results[m], c, p)))
  {
    ResultLaid(s, ci, c, p, parent, m);
    LaidRoot(s, ci + 1 + m, ResultPlan(c.results[m], c, p), Some(ci));
  }

  // ---------------------------------------------------------------------------------------
  // What the event log says

  /** A control's walk pauses exactly once, on the control's span, after the Start and the
      attribute events of that span and immediately before the walk of its results, which
      never pauses. */
  lemma {:induction false} ControlPause(c: Control, p: Profile, id: nat)
    ensures Occurrences(Pause(id), Log(ControlPlan(c, p), id)) == 1
    ensures PauseEvents(Log(ControlPlan(c, p), id)) == 1
    ensures var l, at := Log(ControlPlan(c, p), id), 1 + |AttrEvents(id, ControlPairs(c, p))|;
      var results := LogAll(ResultPlans(c.results, c, p), id + 1);
      && l[0] == Start(id)
      && (forall e :: 0 < e < at ==> l[e].SetAttr? && l[e].span == id)
      && at < |l| && l[at] == Pause(id)
      && at + 1 + |results| <= |l| && l[at + 1..at + 1 + |results|] == results
      && PauseEvents(results) == 0
  {
    RootPauses(ControlPlan(c, p), id);
    PauseAfterAttributes(ControlPlan(c, p), id);
    PauseEventsCount(ControlPlan(c, p), id);
    PauseEventsAllCount(ResultPlans(c.results, c, p), id + 1);
    ResultPlansSize(c.results, c, p);
  }

  /** A report's log holds one pause per control of the report and no other. */
  lemma {:induction false} ReportPauses(report: ScanReport, host: Host, id: nat)
    ensures PauseEvents(Log(RunPlan(report, host), id) + [Flush]) == ControlTotal(report.profiles)
  {
    SpanCount(report, host);
    PauseEventsCount(RunPlan(report, host), id);
    PauseEventsAppend(Log(RunPlan(report, host), id), [Flush]);
    assert [Flush][..0] == [];
  }

  /** The run's walk: its Start and attributes, the walks of the profiles in order, then the
      duration attribute, then the run's End, the last event before the flush. */
  lemma {:induction false} RunLog(report: ScanReport, host: Host, id: nat)
    ensures Log(RunPlan(report, host), id) ==
      [Start(id)] + AttrEvents(id, RootPairs(report, host)) + LogAll(ProfilePlans(report.profiles), id + 1)
        + [SetAttr(id, Keys.Duration), End(id)]
  {
    var d := DurationPairs(report);
    assert d[..0] == [];
    assert AttrEvents(id, d) == [SetAttr(id, Keys.Duration)];
  }

  // ---------------------------------------------------------------------------------------
  // The host's addresses

  /** get_ip_addresses filters element by element: the addresses of a concatenation are the
      concatenation of the addresses, so their order is kept. */
  lemma {:induction false} IpAddressesAppend(a: seq<string>, b: seq<string>)
    ensures IpAddresses(a + b) == IpAddresses(a) + IpAddresses(b)
    decreases |a|
  {
    if |a| == 0 {
      assert a + b == b;
    } else {
      assert (a + b)[1..] == a[1..] + b;
      IpAddressesAppend(a[1..], b);
    }
  }

  /** Without the loopback address nothing is dropped. */
  lemma {:induction false} IpAddressesKeep(addresses: seq<string>)
    requires forall i :: 0 <= i < |addresses| ==> addresses[i] != LOOPBACK
    ensures IpAddresses(addresses) == addresses
    decreases |addresses|
  {
    if |addresses| > 0 {
      IpAddressesKeep(addresses[1..]);
    }
  }

  /** Filtering twice is filtering once. */
  lemma {:induction false} IpAddressesIdempotent(addresses: seq<string>)
    ensures IpAddresses(IpAddresses(addresses)) == IpAddresses(addresses)
  {
    var r := IpAddresses(addresses);
    assert forall i :: 0 <= i < |r| ==> r[i] in r;
    IpAddressesKeep(r);
  }
}
