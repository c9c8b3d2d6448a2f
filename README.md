# InSpec Honeycomb reporter: the span tree of a scan report

The Honeycomb reporter of InSpec turns a finished compliance scan into an OpenTelemetry
trace. Its `report` method proceeds as follows:

- It opens one root span, `inspec-run`. This span carries facts about the run and the host:
  service name, platform, version, host name, architecture, OS and IP addresses.
- Inside the root span it opens one child span per profile (`profile: <name>`).
- Inside each profile span it opens one span per control (`control: <id>`). The control
  span sleeps once after its attributes are set.
- Inside each control span it opens one span per result (`result: <code_desc>`).
- After all the profiles it sets the root span's `duration` attribute (milliseconds), ends
  the root span, flushes the tracer provider and returns the report unchanged.

Every attribute goes through `set_attributes`, which skips nil values. Each value it sets
passes through `sanitize_attribute`, which keeps strings, numbers and booleans and turns
anything else into its string form.

This project models that walk and proves what it produces.

**The tracer is a recording object.** `Tracer.Recorder` is a class. It holds:

- every span opened so far, with its name, parent, attributes and the positions of its
  start and end in the log;
- the stack of open spans;
- a log of events: `Start`, `SetAttr`, `Pause`, `End` and `Flush`.

Its methods are the operations the reporter uses: `in_span` entry and exit, `set_attribute`,
a sleep, and `force_flush`. Each method keeps an invariant, `Tracer.Consistent`:

- spans are numbered in start order;
- parents start before their children;
- a child ends before its parent;
- siblings do not overlap;
- attributes are set and pauses taken only while their span is open;
- the open stack is exactly the spans not yet ended.

**How the walk is checked.** The reporter's methods (`Reporter.ProcessResult`, … ,
`Reporter.Report`) drive a `Recorder`, loop for loop as the Ruby code does. A pure tree
(`SpanTree.Plan`) gives the specification: for each span it holds the name, the attribute
hash set when the span opens, whether the span pauses, its children, and the hash set at
the end.

- `Reporter.RunPlan` builds that tree from a report.
- `SpanTree.Layout` says which spans a tree must produce.
- `SpanTree.Log` says which events it must produce.

Every walk method is proved to append exactly the layout and the log of its tree. The
lemmas of `ReporterProperties` then state, in the report's own terms:

- how many spans the trace has;
- index, name, parent and attributes of every profile, control and result span;
- one pause per control, after the control's attributes and before its results;
- the duration set after every profile, and the root span ending last.

The files:

- `keys.dfy`: the attribute keys.
- `values.dfy`: report values; `sanitize_attribute` and `set_attributes`.
- `tracer.dfy`: the recorder and its invariant.
- `scan.dfy`: the report and the host inputs.
- `spantree.dfy`: trees, their layouts, their logs, and what a walk leaves in the recorder.
- `reporter.dfy`: the reporter.
- `properties.dfy`: properties of a report's trace.

Where the reporter's documented behaviour and its code differ, the model follows the code:
- **Loopback addresses.** The code removes only the exact string `127.0.0.1`. Other
  loopback forms, such as `::1`, stay in the list.
- **Failed IP lookup.** The code does not catch a failure to list the host's addresses, so
  there is no path that omits the attribute.
- **`ip_addresses` attribute.** The list never contains `127.0.0.1` as an element
  (`Reporter.IpAddresses`). The joined attribute can still contain that text inside another
  address, such as `127.0.0.10`.

## Model

| member | source | states |
|---|---|---|
| Values.Sanitize | lib/inspec-reporter-honeycomb/reporter.rb:135-146 | total; a string, number or boolean comes back as the same value; any other value becomes a string attribute; either way the value's text is unchanged |
| Values.AttachKeys | lib/inspec-reporter-honeycomb/reporter.rb:129-133 | set_attributes adds exactly the keys whose value is not nil and leaves every other existing attribute as it was |
| Values.AttachValue | lib/inspec-reporter-honeycomb/reporter.rb:129-133 | with the distinct keys of a hash literal, every non-nil entry ends up on the span as its sanitized value |
| Values.NilNotAttached | lib/inspec-reporter-honeycomb/reporter.rb:131 | a nil entry never creates its key |
| Values.AttachCarries | lib/inspec-reporter-honeycomb/reporter.rb:129-133 | on a fresh span the attributes are exactly the non-nil entries of the hash, sanitized, and no nil entry's key |
| Values.AttachConcat | lib/inspec-reporter-honeycomb/reporter.rb:30-47 | two set_attributes calls on the root span set what one call with both hashes sets |
| Tracer.Recorder.constructor | lib/inspec-reporter-honeycomb/reporter.rb:27 | a fresh tracer has no spans, no open span and an empty log, and satisfies the invariant |
| Tracer.Recorder.StartSpan | lib/inspec-reporter-honeycomb/reporter.rb:29 | in_span opens a span named as given, child of the current span, without attributes; it becomes current and a Start event is logged; the invariant is kept |
| Tracer.Recorder.SetAttribute | lib/inspec-reporter-honeycomb/reporter.rb:131 | set_attribute changes only the current span's attribute for the key, and logs it |
| Tracer.Recorder.Sleep | lib/inspec-reporter-honeycomb/reporter.rb:102 | the sleep changes no span and logs one Pause on the current span |
| Tracer.Recorder.EndSpan | lib/inspec-reporter-honeycomb/reporter.rb:48 | leaving the in_span block ends the current span at this log position and makes its parent current; the invariant is kept |
| Tracer.Recorder.ForceFlush | lib/inspec-reporter-honeycomb/reporter.rb:50 | the flush changes no span and logs a Flush |
| Tracer.StartKeepsConsistent | lib/inspec-reporter-honeycomb/reporter.rb:29 | opening a span keeps start order, parent-before-child, the open stack, children-end-first and siblings-in-sequence |
| Tracer.EndKeepsConsistent | lib/inspec-reporter-honeycomb/reporter.rb:48 | ending the innermost open span keeps the whole invariant |
| Tracer.SetAttrKeepsConsistent | lib/inspec-reporter-honeycomb/reporter.rb:131 | setting an attribute on the current span keeps the whole invariant |
| Tracer.LaterSpansEnded | lib/inspec-reporter-honeycomb/reporter.rb:45-48 | when the root span is about to end, every span started after it has already ended |
| Reporter.IpAddresses | lib/inspec-reporter-honeycomb/reporter.rb:125-127 | an address is in the result exactly when it is one of the host's addresses other than 127.0.0.1; the list never grows |
| ReporterProperties.IpAddressesAppend | lib/inspec-reporter-honeycomb/reporter.rb:126 | the filter works element by element, keeping order: the addresses of a concatenation are the concatenation of the addresses |
| ReporterProperties.IpAddressesKeep | lib/inspec-reporter-honeycomb/reporter.rb:126 | with no 127.0.0.1 among them, the addresses come back unchanged |
| ReporterProperties.IpAddressesIdempotent | lib/inspec-reporter-honeycomb/reporter.rb:126 | filtering twice gives what filtering once gives |
| Reporter.ResultPlansAt | lib/inspec-reporter-honeycomb/reporter.rb:104-106 | the tree of result `m` of a control is that result's own tree |
| Reporter.ControlPlansAt | lib/inspec-reporter-honeycomb/reporter.rb:83-85 | the tree of control `j` of a profile is that control's own tree |
| Reporter.ProfilePlansAt | lib/inspec-reporter-honeycomb/reporter.rb:41-43 | the tree of profile `k` of the report is that profile's own tree |
| Reporter.SetAttributes | lib/inspec-reporter-honeycomb/reporter.rb:129-133 | the current span's attributes become `Attach` of its old attributes and the hash; one SetAttr per non-nil entry, in order; nothing else changes |
| Reporter.EnterSpan | lib/inspec-reporter-honeycomb/reporter.rb:75-81 | after in_span and set_attributes the new span (numbered next) is current, and the spans and log are the old ones plus the tree's entry |
| Reporter.Leave | lib/inspec-reporter-honeycomb/reporter.rb:86 | leaving the block ends exactly the current span and logs its End |
| Reporter.ProcessResult | lib/inspec-reporter-honeycomb/reporter.rb:110-123 | appends exactly the result's span ("result: " and code_desc, with the result's attributes) and its events, below the current span |
| Reporter.ProcessResults | lib/inspec-reporter-honeycomb/reporter.rb:104-106 | appends the spans and events of every result, in order |
| Reporter.ProcessControl | lib/inspec-reporter-honeycomb/reporter.rb:89-108 | appends exactly the control's tree: its span and attributes, one pause, then its results, then its end |
| Reporter.ProcessControls | lib/inspec-reporter-honeycomb/reporter.rb:83-85 | appends the trees of every control of the profile, in order |
| Reporter.ProcessProfile | lib/inspec-reporter-honeycomb/reporter.rb:74-87 | appends exactly the profile's tree: its span and attributes, then its controls |
| Reporter.ProcessProfiles | lib/inspec-reporter-honeycomb/reporter.rb:41-43 | appends the trees of every profile of the report, in order |
| Reporter.FinishRun | lib/inspec-reporter-honeycomb/reporter.rb:45-48 | the duration attribute is set and the root span ends, as the last event; every later span had ended before |
| Reporter.RunSpan | lib/inspec-reporter-honeycomb/reporter.rb:29-48 | appends exactly the run's tree; the root span ends last, after the duration is set |
| Reporter.Report | lib/inspec-reporter-honeycomb/reporter.rb:25-54 | returns the report unchanged; the tracer gains exactly the spans of the run's tree (laid out from the next index, below the span current before) and the run's events followed by one Flush; the root ends just before the flush and every other span ended before the duration was set |
| SpanTree.AppendedLaid | lib/inspec-reporter-honeycomb/reporter.rb:25-54 | the spans a walk appends are the tree laid out from the first new index |
| SpanTree.LaidRoot | lib/inspec-reporter-honeycomb/reporter.rb:29 | the first span of a laid-out tree has the tree's name, the given parent and the tree's final attributes |
| SpanTree.LaidChild | lib/inspec-reporter-honeycomb/reporter.rb:41-43 | child `k` of a laid-out tree is laid out after its parent span and all spans of its elder siblings, below the parent |
| SpanTree.RootPauses | lib/inspec-reporter-honeycomb/reporter.rb:102 | a tree's walk pauses on its root span once if the tree pauses, and never otherwise |
| SpanTree.PauseAfterAttributes | lib/inspec-reporter-honeycomb/reporter.rb:91-106 | a pausing root's Pause comes right after its Start and its SetAttr events and right before its children's events |
| SpanTree.PauseEventsCount | lib/inspec-reporter-honeycomb/reporter.rb:102 | a walk logs as many pauses as the tree has pausing nodes |
| SpanTree.LogAbout | lib/inspec-reporter-honeycomb/reporter.rb:29-48 | all events of a tree's walk are about the tree's own spans, and none is a flush |
| SpanTree.WalkedNode | lib/inspec-reporter-honeycomb/reporter.rb:74-87 | opening a span, walking its children and closing it is the walk of the whole tree |
| SpanTree.WalkedThenFlushed | lib/inspec-reporter-honeycomb/reporter.rb:48-50 | a walk followed by a flush appends the tree's layout and its events plus Flush |
| ReporterProperties.ResultPlansSize | lib/inspec-reporter-honeycomb/reporter.rb:104-106 | one span per result, and no result pauses |
| ReporterProperties.ControlPlansSize | lib/inspec-reporter-honeycomb/reporter.rb:83-85 | a profile's controls give one span per control and per result, and one pause per control |
| ReporterProperties.ProfilePlansSize | lib/inspec-reporter-honeycomb/reporter.rb:41-43 | the profiles give one span per profile, control and result, and one pause per control |
| ReporterProperties.SpanCount | lib/inspec-reporter-honeycomb/reporter.rb:29-48 | a report yields 1 + profiles + controls + results spans and as many pauses as it has controls |
| ReporterProperties.ProfileOffsetIs | lib/inspec-reporter-honeycomb/reporter.rb:41-43 | profile `k`'s tree starts after the root and the spans of the `k` profiles before it |
| ReporterProperties.ControlOffsetIs | lib/inspec-reporter-honeycomb/reporter.rb:83-85 | control `j`'s tree starts after its profile's span and the spans of the `j` controls before it |
| ReporterProperties.ResultOffsetIs | lib/inspec-reporter-honeycomb/reporter.rb:104-106 | result `m`'s span is `1 + m` after its control's span |
| ReporterProperties.RootPairsDistinct | lib/inspec-reporter-honeycomb/reporter.rb:30-47 | the root span's two hashes name no key twice |
| ReporterProperties.ProfilePairsDistinct | lib/inspec-reporter-honeycomb/reporter.rb:76-81 | the profile hash names no key twice |
| ReporterProperties.ControlPairsDistinct | lib/inspec-reporter-honeycomb/reporter.rb:91-99 | the control hash names no key twice |
| ReporterProperties.ResultPairsDistinct | lib/inspec-reporter-honeycomb/reporter.rb:112-121 | the result hash names no key twice |
| ReporterProperties.RunAttrs | lib/inspec-reporter-honeycomb/reporter.rb:30-47 | the root span ends up with exactly the non-nil root facts and the duration, which is the report's duration times 1000 |
| ReporterProperties.ProfileAttrs | lib/inspec-reporter-honeycomb/reporter.rb:76-81 | a profile span carries exactly the non-nil profile.* entries |
| ReporterProperties.ControlAttrs | lib/inspec-reporter-honeycomb/reporter.rb:91-99 | a control span carries exactly its non-nil entries, among them its profile's name, title and version |
| ReporterProperties.ResultAttrs | lib/inspec-reporter-honeycomb/reporter.rb:112-121 | a result span carries exactly its non-nil entries, among them its control's name and id and its profile's name, title and version |
| ReporterProperties.ProfileLaid | lib/inspec-reporter-honeycomb/reporter.rb:41-43 | profile `k`'s tree is laid out at its offset, below the root |
| ReporterProperties.ControlLaid | lib/inspec-reporter-honeycomb/reporter.rb:83-85 | control `j`'s tree is laid out at its offset, below its profile's span |
| ReporterProperties.ResultLaid | lib/inspec-reporter-honeycomb/reporter.rb:104-106 | result `m`'s span is laid out at `1 + m`, below its control's span |
| ReporterProperties.ReportedRun | lib/inspec-reporter-honeycomb/reporter.rb:29-39 | the run's span is named "inspec-run", hangs below the span that was current, and carries the run's attributes |
| ReporterProperties.ReportedProfile | lib/inspec-reporter-honeycomb/reporter.rb:75-81 | profile `k`'s span is at its offset, named "profile: " and the profile's name, below the run's span, with the profile's attributes |
| ReporterProperties.ReportedControl | lib/inspec-reporter-honeycomb/reporter.rb:90-99 | control `j` of profile `k` has its span at its offset, named "control: " and the control's id, below the profile's span, with the control's attributes |
| ReporterProperties.ReportedResult | lib/inspec-reporter-honeycomb/reporter.rb:111-121 | result `m` of that control has its span at `1 + m` after the control's span, named "result: " and the code_desc, below the control's span, with the result's attributes |
| ReporterProperties.ControlRoot | lib/inspec-reporter-honeycomb/reporter.rb:90-99 | in a laid-out profile, control `j`'s span has its name, parent and attributes |
| ReporterProperties.ControlResultRoot | lib/inspec-reporter-honeycomb/reporter.rb:111-121 | in a laid-out profile, result `m` of control `j` has its name, parent and attributes |
| ReporterProperties.ResultRoot | lib/inspec-reporter-honeycomb/reporter.rb:111-121 | in a laid-out control, result `m`'s span has its name, parent and attributes |
| ReporterProperties.ControlPause | lib/inspec-reporter-honeycomb/reporter.rb:89-108 | a control's walk pauses exactly once, on its own span, after its Start and its attribute events and right before its results, which never pause |
| ReporterProperties.ReportPauses | lib/inspec-reporter-honeycomb/reporter.rb:101-106 | the report's events hold one pause per control and no other |
| ReporterProperties.RunLog | lib/inspec-reporter-honeycomb/reporter.rb:29-48 | the run's events are its Start and attributes, then all the profiles' events, then the duration, then the root's End |

## Left out

- OpenTelemetry configuration (`initialize`, `configure_opentelemetry`): SDK set-up, the OTLP
  exporter, the batch span processor and auto-instrumentation. This is external SDK code.
- `render` and the JSON text of the report, and `run_data_schema_constraints`. They are
  plugin plumbing, not the projection.
- Building the report with the JSON-automate reporter (reporter.rb:26). The report is an
  input value; that reporter is not part of this model.
- Reading the host: `ENV['OTEL_SERVICE_NAME']`, `Socket.gethostname`, `RbConfig`,
  `Socket.ip_address_list`. `Scan.Host` supplies these values as inputs.
- The debug log line (reporter.rb:52). It is logging only.
- Time. Span start and end are positions in the event log, not clock readings. The 5-second
  sleep is a `Pause` event. The flush, which blocks until the exporter has sent the spans, is
  a `Flush` event. Export, batching and network I/O are not modelled.
- Floating point. `to_f` on `impact`, `run_time` and `duration * 1000` is modelled on integers,
  so the model cannot tell `1500` from `1500.0`. The text of a number in a span name is its
  integer text.
- Ruby's `nil.to_f` (0.0). `Scan.Control.impact` and `Scan.Result.runTime` are integers, so a
  nil impact or run time cannot be expressed.
- `to_json` of a profile's attribute hash. The profile carries that JSON text
  (`attributesJson`) as an input string.
- Hash keys: string keys are modelled as the enumeration `Keys.Key`, with `Keys.Name` giving
  the key strings. The source's hash literals never repeat a key, as the `*PairsDistinct`
  lemmas check.
- Exceptions. The model has no path for a missing report field (a `NoMethodError` on nil
  in Ruby) or for an exception raised inside a block, which `in_span` would record on the
  span before re-raising.
- `Values.Sanitize`: Ruby's `to_s` of objects other than strings, numbers, booleans and nil
  comes from the object. The model takes that text as part of the value (`Values.Other`).
- Per-span pause placement is stated per tree: by `ReporterProperties.ControlPause` on a
  control's own events, and by `ReporterProperties.ReportPauses` as a count for the whole
  run. There is no lemma that locates control `j`'s pause at an absolute position in the
  recorder's log.
