/** The protocol side of one window: which changes the program hears of, what it
    therefore believes every widget reads, and how a scripted window is replayed. */
module GuiSession {
  import opened Layout
  import opened Options
  import opened TextArea
  import opened Widgets
  import opened WindowState
  import opened WindowClicks
  import opened WindowKeys
  import opened WindowRequests
  import opened WidgetModel

  datatype Output =
    | ClickEvent(clicked: int)
    | KeyEvent(name: Text)
    | ChangeEvent(changed: int, reading: Reading)
    | ClosedEvent(values: seq<(int, Reading)>)

  datatype Step =
    | TypeStep(id: int, text: Text)
    | ToggleStep(id: int)
    | SelectStep(id: int, index: int)
    | ResizeStep(w: int, h: int)
    | ClickStep(id: int)
    | KeyStep(name: Text)
    | OtherStep
  {
    /** A step of the user on one widget. */
    predicate Acting() { TypeStep? || ToggleStep? || SelectStep? }
  }

  datatype Request =
    | Status
    | Close
    | Wait
    | Get(id: int)
    | Add(parent: int, spec: Spec)
    | PutText(id: int, text: Text)
    | PutChecked(id: int, checked: bool)
    | PutItems(id: int, items: seq<Text>)
    | PutRows(id: int, rows: seq<seq<Text>>)
    | PutSelected(id: int, index: int)
    | PutEnabled(id: int, enabled: bool)
    | PutResizable(allowed: bool)
    | ListenKeys
    | ListenClick(id: int)
    | ListenChange(id: int)
  {
    /** A request for a new text, check state, entries or selection. */
    predicate Putting() {
      PutText? || PutChecked? || PutItems? || PutRows? || PutSelected?
    }

    predicate Listening() {
      ListenKeys? || ListenClick? || ListenChange?
    }
  }

  datatype Response =
    | Done
    | Open(open: bool)
    | Final(values: seq<(int, Reading)>)
    | Read(text: Text, checked: bool, selected: int)
    | Made(id: int)
    | Refused(problem: Problem)
    | Gone

  // ---- a session as a value --------------------------------------------------------

  /** Everything a session holds besides the window. */
  datatype Ledger = Ledger(
    closed: bool, closedSent: bool, listenKey: bool, clicks: set<int>, changes: set<int>, cursor: nat,
    out: seq<Output>,
    known: map<int, Reading>)    // what the program believes each widget reads

  datatype Situation = Situation(ledger: Ledger, window: Window)

  /** The program is wrong about a widget and nothing queued will tell it. */
  ghost predicate Lost(s: Situation, id: int) {
    && id in s.window.widgets && id in s.ledger.known && id !in s.window.changes
    && s.ledger.known[id] != ReadingOf(s.window.widgets[id])
  }

  /** The program is right about a widget. */
  ghost predicate Right(s: Situation, id: int) {
    id in s.window.widgets && id in s.ledger.known && s.ledger.known[id] == ReadingOf(s.window.widgets[id])
  }

  function ClosedEvents(out: seq<Output>): nat {
    if out == [] then 0 else ClosedEvents(out[..|out| - 1]) + if out[|out| - 1].ClosedEvent? then 1 else 0
  }

  predicate Wanted(l: Ledger, e: Output) {
    match e
    case ClickEvent(id) => id in l.clicks
    case KeyEvent(_) => l.listenKey
    case ChangeEvent(id, _) => id in l.changes
    case ClosedEvent(_) => true
  }

  /** Only what the program listens to was sent, and `closed` at most once. */
  ghost predicate Solicited(l: Ledger) {
    && (forall i :: 0 <= i < |l.out| ==> Wanted(l, l.out[i]))
    && ClosedEvents(l.out) == (if l.closedSent then 1 else 0) && (l.closedSent ==> l.closed)
  }

  ghost predicate Sound(s: Situation) {
    && Solicited(s.ledger) && s.ledger.known.Keys == s.window.widgets.Keys
    && s.ledger.clicks <= s.window.widgets.Keys && s.ledger.changes <= s.window.widgets.Keys
    && forall id :: id in s.window.widgets && ReadingOf(s.window.widgets[id]) == Nothing ==>
         s.ledger.known[id] == Nothing
  }

  /** A session only moves forward, and never loses a widget it listened to. */
  ghost predicate Onward(a: Situation, b: Situation) {
    && a.ledger.out <= b.ledger.out && a.ledger.cursor <= b.ledger.cursor
    && (a.ledger.closed ==> b.ledger.closed) && (a.ledger.closedSent ==> b.ledger.closedSent)
    && (a.ledger.listenKey ==> b.ledger.listenKey)
    && a.ledger.clicks <= b.ledger.clicks && a.ledger.changes <= b.ledger.changes
    && a.window.widgets.Keys <= b.window.widgets.Keys
    && forall id :: id in a.ledger.changes && id in a.window.widgets && Lost(b, id) ==> Lost(a, id)
  }

  lemma OnwardTwice(a: Situation, b: Situation, c: Situation)
    requires Onward(a, b) && Onward(b, c)
    ensures Onward(a, c)
  {
    hide Lost;
  }

  /** `closed` goes out at most once in any history. */
  lemma {:induction false} ClosedOnce(out: seq<Output>, i: nat, j: nat)
    requires i < j < |out| && out[i].ClosedEvent? && out[j].ClosedEvent?
    ensures ClosedEvents(out) >= 2
  {
    var rest := out[..|out| - 1];
    if j == |out| - 1 {
      ClosedCounted(rest, i);
    } else {
      ClosedOnce(rest, i, j);
    }
  }

  lemma {:induction false} ClosedCounted(out: seq<Output>, i: nat)
    requires i < |out| && out[i].ClosedEvent?
    ensures ClosedEvents(out) >= 1
  {
    if i < |out| - 1 {
      ClosedCounted(out[..|out| - 1], i);
    }
  }

  // ---- reports ---------------------------------------------------------------------

  /** The events one report sends: the queued widgets the program listens to, in order. */
  function Reports(taken: seq<int>, listening: set<int>, widgets: map<int, Widget>): seq<Output> {
    if taken == [] then [] else
      var before, id := Reports(taken[..|taken| - 1], listening, widgets), taken[|taken| - 1];
      if id in listening && id in widgets && ReadingOf(widgets[id]) != Nothing
      then before + [ChangeEvent(id, ReadingOf(widgets[id]))] else before
  }

  /** A report holds one event for each queued widget listened to that can be
      read, with its present reading, and no other event. */
  lemma {:induction false} ReportsExact(taken: seq<int>, listening: set<int>, widgets: map<int, Widget>, e: Output)
    ensures e in Reports(taken, listening, widgets) <==>
            e.ChangeEvent? && e.changed in taken && e.changed in listening && e.changed in widgets
            && e.reading == ReadingOf(widgets[e.changed]) && e.reading != Nothing
  {
    if taken != [] {
      ReportsExact(taken[..|taken| - 1], listening, widgets, e);
      if e.ChangeEvent? {
        assert e.changed in taken <==> e.changed in taken[..|taken| - 1] || e.changed == taken[|taken| - 1];
      }
    }
  }

  /** A report never tells a listener of one widget twice. */
  lemma {:induction false} ReportsOnce(taken: seq<int>, listening: set<int>, widgets: map<int, Widget>)
    requires forall i, j :: 0 <= i < j < |taken| ==> taken[i] != taken[j]
    ensures var r := Reports(taken, listening, widgets);
            |r| <= |taken| && forall i, j :: 0 <= i < j < |r| ==> r[i] != r[j]
  {
    if taken != [] {
      var rest := taken[..|taken| - 1];
      ReportsOnce(rest, listening, widgets);
      forall e | e in Reports(rest, listening, widgets)
        ensures e.ChangeEvent? && e.changed != taken[|taken| - 1]
      {
        ReportsExact(rest, listening, widgets, e);
      }
    }
  }

  /** A report is in the order of the queue: what was queued first is told first. */
  lemma {:induction false} ReportsAdd(taken: seq<int>, more: seq<int>, listening: set<int>, widgets: map<int, Widget>)
    ensures Reports(taken + more, listening, widgets) ==
            Reports(taken, listening, widgets) + Reports(more, listening, widgets)
    decreases |more|
  {
    hide ReadingOf;
    if more == [] {
      assert taken + more == taken;
    } else {
      var rest := more[..|more| - 1];
      ReportsAdd(taken, rest, listening, widgets);
      var all := taken + more;
      assert all[..|all| - 1] == taken + rest && all[|all| - 1] == more[|more| - 1];
    }
  }

  lemma FewReports(taken: seq<int>, listening: set<int>, widgets: map<int, Widget>)
    requires |taken| <= 1
    ensures |Reports(taken, listening, widgets)| <= 1
  {
    if |taken| == 1 {
      assert taken[..0] == [];
    }
  }

  /** The reading a list of values gives a widget. */
  function ValueOf(values: seq<(int, Reading)>, id: int): Option<Reading> {
    if values == [] then None
    else if values[|values| - 1].0 == id then Some(values[|values| - 1].1)
    else ValueOf(values[..|values| - 1], id)
  }

  lemma {:induction false} ValueOfValues(widgets: map<int, Widget>, order: seq<int>, id: int)
    requires id in widgets
    ensures ValueOf(ValuesOf(widgets, order), id) ==
            if id in order && ReadingOf(widgets[id]) != Nothing then Some(ReadingOf(widgets[id])) else None
  {
    if order != [] {
      var rest, last := order[..|order| - 1], order[|order| - 1];
      ValueOfValues(widgets, rest, id);
      assert id in order <==> id in rest || id == last;
      var before, after := ValuesOf(widgets, rest), ValuesOf(widgets, order);
      if after != before {
        assert after[..|after| - 1] == before;
      }
    }
  }

  /** What the program believes after hearing one event. */
  function HeardOne(known: map<int, Reading>, e: Output): (r: map<int, Reading>)
    ensures r.Keys == known.Keys
  {
    match e
    case ChangeEvent(id, reading) => if id in known then known[id := reading] else known
    case ClosedEvent(values) =>
      map k | k in known :: if ValueOf(values, k).Some? then ValueOf(values, k).value else known[k]
    case _ => known
  }

  /** What the program believes after hearing some events. */
  function Heard(known: map<int, Reading>, events: seq<Output>): (r: map<int, Reading>)
    ensures r.Keys == known.Keys
  {
    if events == [] then known else HeardOne(Heard(known, events[..|events| - 1]), events[|events| - 1])
  }

  /** Hearing a report teaches the present reading of exactly the queued widgets
      listened to; about every other widget the belief stays. */
  lemma {:induction false} HeardReport(known: map<int, Reading>, taken: seq<int>, listening: set<int>,
                                       widgets: map<int, Widget>, id: int)
    requires id in known && id in widgets
    requires ReadingOf(widgets[id]) == Nothing ==> known[id] == Nothing
    ensures Heard(known, Reports(taken, listening, widgets))[id] ==
            if id in taken && id in listening then ReadingOf(widgets[id]) else known[id]
  {
    hide Heard, ReadingOf, ValueOf;
    if taken == [] {
      HeardNothing(known);
    } else {
      var rest, last := taken[..|taken| - 1], taken[|taken| - 1];
      HeardReport(known, rest, listening, widgets, id);
      assert id in taken <==> id in rest || id == last;
      var before := Reports(rest, listening, widgets);
      HeardMore(known, before, ChangeEvent(last, ReadingOf(widgets[if last in widgets then last else id])));
    }
  }

  lemma HeardNothing(known: map<int, Reading>)
    ensures Heard(known, []) == known
  {
  }

  lemma HeardMore(known: map<int, Reading>, events: seq<Output>, e: Output)
    ensures Heard(known, events + [e]) == HeardOne(Heard(known, events), e)
  {
    var more := events + [e];
    assert more[..|more| - 1] == events;
  }

  // ---- what the program can work out from its own requests ---------------------------

  function FirstReading(spec: Spec): Reading {
    match spec.kind
    case TextInput => TextReading(spec.text)
    case PasswordInput => TextReading(spec.text)
    case AreaInput => TextReading(spec.text)
    case Checkbox => CheckReading(spec.checked)
    case ListBox => SelectReading(spec.selected)
    case Select => SelectReading(spec.selected)
    case TableView => SelectReading(-1)
    case _ => Nothing
  }

  lemma FirstReadingRead(id: int, parent: int, spec: Spec, widths: seq<int>)
    ensures ReadingOf(Created(id, parent, spec, widths)) == FirstReading(spec)
  {
  }

  /** A selection survives new entries while its index is below their count. */
  function AfterEntries(known: Reading, count: nat): Reading {
    if known.SelectReading? && known.selected >= count then SelectReading(-1) else known
  }

  /** What becomes of a reading when a request about its widget is done. */
  function Learned(kind: Kind, known: Reading, r: Request): Reading {
    match r
    case PutText(_, text) => if kind in {TextInput, PasswordInput, AreaInput} then TextReading(text) else known
    case PutChecked(_, checked) => CheckReading(checked)
    case PutItems(_, items) => AfterEntries(known, |items|)
    case PutRows(_, rows) => AfterEntries(known, |rows|)
    case PutSelected(_, index) => SelectReading(index)
    case _ => known
  }

  /** A widget after a request about it. */
  ghost predicate Put(measure: Text -> nat, t: Widget, r: Request, after: Widget) {
    match r
    case PutText(_, text) => after == TextSet(t, text)
    case PutChecked(_, checked) => t.kind == Checkbox && after == t.(checked := checked)
    case PutItems(_, items) => t.kind in {ListBox, Select} && after == Replaced(t.(items := items))
    case PutRows(_, rows) =>
      t.kind == TableView && ValidTable(t.columns, rows)
      && after == Replaced(t.(rows := rows, widths := WidthsOf(measure, t.columns, rows)))
    case PutSelected(_, index) => t.Selecting() && after == Revealed(t.(selected := index))
    case _ => false
  }

  /** A request changes a reading in a way that depends on the reading alone, so the
      program can follow it. */
  lemma PutLearned(measure: Text -> nat, t: Widget, r: Request, after: Widget)
    requires Put(measure, t, r, after)
    ensures ReadingOf(after) == Learned(t.kind, ReadingOf(t), r) && after.kind == t.kind
  {
    hide WidthsOf, Clamped, Revealed, ScrollInside, ValidTable, Replaced;
    match r {
      case PutItems(_, items) => ReplacedReads(t.(items := items));
      case PutRows(_, rows) => if t.kind == TableView && ValidTable(t.columns, rows) {
        TableFacts(t.columns, rows);
        ReplacedReads(t.(rows := rows, widths := WidthsOf(measure, t.columns, rows)));
      }
      case _ =>
    }
  }

  lemma ReplacedReads(t: Widget)
    requires t.Selecting()
    ensures Replaced(t).kind == t.kind
    ensures ReadingOf(Replaced(t)) == SelectReading(if t.selected >= t.Count() then -1 else t.selected)
  {
    ReplacedKeeps(t);
    hide Replaced, ScrollInside;
  }

  // ---- the moves of a session --------------------------------------------------------

  datatype Move =
    | UserActs
    | Reporting
    | Sending(e: Output)                        // a click or a key
    | Closing                                   // closed by the user or the script
    | Fetching(id: int)
    | Putting(measure: Text -> nat, r: Request)
    | Adding(parent: int, spec: Spec, widths: seq<int>)
    | Enabling(id: int, enabled: bool)
    | Allowing(resizable: bool)
    | Listening(r: Request)
    | Advancing                                 // the script's cursor
    | AskedToClose

  /** The events a move sends. */
  ghost function Sent(a: Situation, m: Move): seq<Output> {
    match m
    case Reporting => Reports(a.window.changes, a.ledger.changes, a.window.widgets)
    case Sending(e) => [e]
    case Closing => if a.ledger.closedSent then [] else [ClosedEvent(ValuesOf(a.window.widgets, a.window.order))]
    case _ => []
  }

  function ListeningTo(l: Ledger, r: Request): Ledger {
    match r
    case ListenKeys => l.(listenKey := true)
    case ListenClick(id) => l.(clicks := l.clicks + {id})
    case ListenChange(id) => l.(changes := l.changes + {id})
    case _ => l
  }

  /** The window after a request about one of its widgets. */
  function WindowPut(w: Window, r: Request, after: Widget): Window
    requires r.Putting()
  {
    w.(widgets := w.widgets[r.id := after],
       popup := if (r.PutItems? || r.PutRows?) && w.popup == r.id then 0 else w.popup)
  }

  function WindowAdded(w: Window, parent: int, spec: Spec, widths: seq<int>): Window {
    var id := w.next + 1;
    w.(widgets := Added(w.widgets, parent, Created(id, parent, spec, widths)), order := w.order + [id], next := id,
       root := if parent == 0 then id else w.root)
  }

  /** The ledger after some events were sent. */
  function Told(l: Ledger, events: seq<Output>): Ledger {
    l.(out := l.out + events, known := Heard(l.known, events))
  }

  /** What each move makes of a session and its window. */
  ghost predicate Moves(a: Situation, m: Move, b: Situation) {
    var heard := Told(a.ledger, Sent(a, m));
    && Whole(a.window) && Whole(b.window)
    && match m
       case UserActs =>
         b.ledger == a.ledger && UserStep(a.window.widgets, b.window.widgets, a.window.changes, b.window.changes)
       case Reporting => b.ledger == heard && b.window == a.window.(changes := [])
       case Sending(e) =>
         b.ledger == heard && b.window == a.window && Wanted(a.ledger, e) && (e.ClickEvent? || e.KeyEvent?)
       case Closing => b.ledger == heard.(closed := true, closedSent := true) && b.window == a.window
       case Fetching(id) =>
         && id in a.window.widgets && b.window == a.window
         && b.ledger == a.ledger.(known := a.ledger.known[id := ReadingOf(a.window.widgets[id])])
       case Putting(measure, r) => PutsOne(a, measure, r, b)
       case Adding(parent, spec, widths) =>
         && AddProblem(a.window, parent, spec).None? && b.window == WindowAdded(a.window, parent, spec, widths)
         && b.ledger == a.ledger.(known := a.ledger.known[b.window.next := FirstReading(spec)])
       case Enabling(id, enabled) =>
         id in a.window.widgets && b.ledger == a.ledger && b.window == EnabledSet(a.window, id, enabled)
       case Allowing(resizable) => b.ledger == a.ledger && b.window == a.window.(resizable := resizable)
       case Listening(r) =>
         && (r.ListenClick? || r.ListenChange? ==> r.id in a.window.widgets)
         && b.ledger == ListeningTo(a.ledger, r) && b.window == a.window
       case Advancing => b.ledger == a.ledger.(cursor := a.ledger.cursor + 1) && b.window == a.window
       case AskedToClose => b.ledger == a.ledger.(closed := true) && b.window == a.window
  }

  ghost predicate PutsOne(a: Situation, measure: Text -> nat, r: Request, b: Situation) {
    && r.Putting() && r.id in a.window.widgets && r.id in b.window.widgets && r.id in a.ledger.known
    && Put(measure, a.window.widgets[r.id], r, b.window.widgets[r.id])
    && b.window == WindowPut(a.window, r, b.window.widgets[r.id])
    && b.ledger == a.ledger.(known :=
         a.ledger.known[r.id := Learned(a.window.widgets[r.id].kind, a.ledger.known[r.id], r)])
  }

  /** What tells the program about a widget it was wrong about: a change the user makes
      to it, which is queued; a request after which wrong and right readings are the
      same; a read; and the closed event. */
  ghost predicate Taught(a: Situation, m: Move, b: Situation, id: int) {
    && id in a.window.widgets && id in a.ledger.known && id in b.window.widgets
    && var reading := ReadingOf(a.window.widgets[id]);
       match m
       case UserActs => ReadingOf(b.window.widgets[id]) != reading
       case Fetching(read) => read == id
       case Putting(_, r) =>
         r.Putting() && r.id == id
         && Learned(a.window.widgets[id].kind, a.ledger.known[id], r) == Learned(a.window.widgets[id].kind, reading, r)
       case Closing => !a.ledger.closedSent
       case _ => false
  }

  /** A report drops the change of a queued widget that nobody listens to. */
  ghost predicate Dropped(a: Situation, m: Move, id: int) {
    m.Reporting? && id in a.window.changes && id !in a.ledger.changes && id in a.window.widgets && !Right(a, id)
  }

  // ---- what every move keeps -----------------------------------------------------------

  lemma SolicitedMore(l: Ledger, more: Ledger)
    requires Solicited(l) && more.out == l.out && more.closedSent == l.closedSent && (l.closed ==> more.closed)
    requires (l.listenKey ==> more.listenKey) && l.clicks <= more.clicks && l.changes <= more.changes
    ensures Solicited(more)
  {
  }

  lemma SolicitedOne(l: Ledger, e: Output)
    requires Solicited(l) && Wanted(l, e) && (e.ClosedEvent? ==> l.closed && !l.closedSent)
    ensures Solicited(l.(out := l.out + [e], closedSent := l.closedSent || e.ClosedEvent?))
  {
    var after := l.out + [e];
    assert after[..|after| - 1] == l.out;
  }

  lemma {:induction false} SolicitedReport(l: Ledger, taken: seq<int>, widgets: map<int, Widget>)
    requires Solicited(l)
    ensures Solicited(l.(out := l.out + Reports(taken, l.changes, widgets)))
  {
    if taken == [] {
      assert l.out + [] == l.out;
    } else {
      var rest, id := taken[..|taken| - 1], taken[|taken| - 1];
      SolicitedReport(l, rest, widgets);
      var before := Reports(rest, l.changes, widgets);
      if Reports(taken, l.changes, widgets) != before {
        var e := ChangeEvent(id, ReadingOf(widgets[id]));
        SolicitedOne(l.(out := l.out + before), e);
        assert l.out + before + [e] == l.out + (before + [e]);
      }
    }
  }

  /** Events are sent only to a program that listens, and `closed` once. */
  lemma MoveKeepsSolicited(a: Situation, m: Move, b: Situation)
    requires Solicited(a.ledger) && Moves(a, m, b)
    ensures Solicited(b.ledger)
  {
    hide Whole, Reports, Heard, EnabledSet, WindowAdded, WindowPut, Put, Learned, UserStep, AddProblem, ValuesOf;
    var l := a.ledger;
    match m {
      case Reporting => SolicitedReport(l, a.window.changes, a.window.widgets);
      case Sending(e) => SolicitedOne(l, e);
      case Closing =>
        SolicitedMore(l, l.(closed := true));
        if !l.closedSent {
          SolicitedOne(l.(closed := true), ClosedEvent(ValuesOf(a.window.widgets, a.window.order)));
        }
      case _ =>
    }
    var reached := if m.Reporting? || m.Sending? || m.Closing? then b.ledger.(known := l.known) else l;
    assert l.out + [] == l.out;
    hide Solicited;
    SolicitedMore(reached, b.ledger);
  }

  /** A widget's reading after a move. */
  ghost function ReadingAfter(a: Situation, m: Move, b: Situation, id: int): Reading
    requires id in a.window.widgets && id in b.window.widgets
  {
    var t := a.window.widgets[id];
    match m
    case UserActs => ReadingOf(b.window.widgets[id])
    case Putting(_, r) => if r.Putting() && r.id == id then Learned(t.kind, ReadingOf(t), r) else ReadingOf(t)
    case _ => ReadingOf(t)
  }

  /** What the program believes of a widget after a move. */
  ghost function BeliefAfter(a: Situation, m: Move, id: int): Reading
    requires id in a.window.widgets && id in a.ledger.known
  {
    var t, known := a.window.widgets[id], a.ledger.known[id];
    match m
    case Reporting => if id in a.window.changes && id in a.ledger.changes then ReadingOf(t) else known
    case Closing => if a.ledger.closedSent then known else ReadingOf(t)
    case Fetching(read) => if read == id then ReadingOf(t) else known
    case Putting(_, r) => if r.Putting() && r.id == id then Learned(t.kind, known, r) else known
    case _ => known
  }

  /** Whether a widget is queued after a move. */
  ghost function QueuedAfter(a: Situation, m: Move, b: Situation, id: int): bool
    requires id in a.window.widgets && id in b.window.widgets
  {
    match m
    case UserActs => id in a.window.changes || ReadingOf(b.window.widgets[id]) != ReadingOf(a.window.widgets[id])
    case Reporting => false
    case _ => id in a.window.changes
  }

  lemma UserActsAt(a: Situation, b: Situation, id: int)
    requires Sound(a) && Moves(a, UserActs, b) && id in a.window.widgets
    ensures id in b.window.widgets && id in b.ledger.known && b.window.widgets.Keys == a.window.widgets.Keys
    ensures b.window.widgets[id].kind == a.window.widgets[id].kind
    ensures b.ledger.known[id] == BeliefAfter(a, UserActs, id)
    ensures id in b.window.changes <==> QueuedAfter(a, UserActs, b, id)
  {
    hide Whole;
    StepAt(a.window.widgets, b.window.widgets, a.window.changes, b.window.changes, id);
  }

  lemma EventsAt(a: Situation, m: Move, b: Situation, id: int)
    requires Sound(a) && Moves(a, m, b) && id in a.window.widgets && (m.Reporting? || m.Sending? || m.Closing?)
    ensures b.window == a.window.(changes := b.window.changes) && id in b.ledger.known
    ensures b.ledger.known[id] == BeliefAfter(a, m, id) && (id in b.window.changes <==> QueuedAfter(a, m, b, id))
  {
    hide Whole, ReadingOf, ValuesOf, Solicited;
    match m {
      case Reporting => HeardReport(a.ledger.known, a.window.changes, a.ledger.changes, a.window.widgets, id);
      case Closing =>
        if !a.ledger.closedSent {
          HeardClosed(a.ledger.known, a.window.widgets, a.window.order, id);
          OrderHolds(a.window, id);
        }
      case Sending(e) =>
        var sent := [e];
        assert sent[..0] == [] && Heard(a.ledger.known, []) == a.ledger.known;
    }
  }

  lemma OrderHolds(w: Window, id: int)
    requires Whole(w) && id in w.widgets
    ensures id in w.order
  {
    OrderFacts(w);
    assert w.order[id - 1] == id;
  }

  lemma HeardClosed(known: map<int, Reading>, widgets: map<int, Widget>, order: seq<int>, id: int)
    requires id in known && id in widgets && (ReadingOf(widgets[id]) == Nothing ==> known[id] == Nothing)
    ensures Heard(known, [ClosedEvent(ValuesOf(widgets, order))])[id] ==
            if id in order then ReadingOf(widgets[id]) else known[id]
  {
    hide ValueOf, ValuesOf, ReadingOf;
    ValueOfValues(widgets, order, id);
    var sent := [ClosedEvent(ValuesOf(widgets, order))];
    assert sent[..0] == [] && Heard(known, []) == known;
  }

  lemma PutAt(a: Situation, m: Move, b: Situation, id: int)
    requires Sound(a) && Moves(a, m, b) && id in a.window.widgets && m.Putting?
    ensures id in b.window.widgets && id in b.ledger.known && b.window.widgets.Keys == a.window.widgets.Keys
    ensures b.window.widgets[id].kind == a.window.widgets[id].kind
    ensures ReadingOf(b.window.widgets[id]) == ReadingAfter(a, m, b, id)
    ensures b.ledger.known[id] == BeliefAfter(a, m, id) && (id in b.window.changes <==> QueuedAfter(a, m, b, id))
  {
    hide Whole, ReadingOf, Put, Learned, Solicited;
    PutLearned(m.measure, a.window.widgets[m.r.id], m.r, b.window.widgets[m.r.id]);
  }

  lemma OtherAt(a: Situation, m: Move, b: Situation, id: int)
    requires Sound(a) && Moves(a, m, b) && id in a.window.widgets
    requires m.Fetching? || m.Adding? || m.Enabling? || m.Allowing? || m.Listening? || m.Advancing? || m.AskedToClose?
    ensures id in b.window.widgets && id in b.ledger.known
    ensures ReadingOf(b.window.widgets[id]) == ReadingOf(a.window.widgets[id])
    ensures b.ledger.known[id] == BeliefAfter(a, m, id) && (id in b.window.changes <==> id in a.window.changes)
  {
    hide Solicited, AddProblem, Whole;
    match m {
      case Adding(parent, spec, widths) => AddingAt(a.window, parent, spec, widths, id);
      case Enabling(changed, enabled) => EnablingAt(a.window, changed, enabled, id);
      case _ =>
    }
    hide ReadingOf, WindowAdded, EnabledSet;
  }

  lemma AddingAt(w: Window, parent: int, spec: Spec, widths: seq<int>, id: int)
    requires Whole(w) && id in w.widgets
    ensures var b := WindowAdded(w, parent, spec, widths);
            && id in b.widgets && ReadingOf(b.widgets[id]) == ReadingOf(w.widgets[id])
            && b.changes == w.changes && id != b.next
            && b.next == w.next + 1
  {
    hide Whole, Created, Added, Tree, Changes;
    TreeFacts(w);
    CreatedFacts(w.next + 1, parent, spec, widths);
    AddedAt(w.widgets, parent, Created(w.next + 1, parent, spec, widths), id);
  }

  lemma AddedShape(w: Window, parent: int, spec: Spec, widths: seq<int>)
    requires Whole(w)
    ensures var b := WindowAdded(w, parent, spec, widths);
            && b.next !in w.widgets && b.widgets.Keys == w.widgets.Keys + {b.next}
            && b.widgets[b.next] == Created(b.next, parent, spec, widths)
  {
    hide Whole, Created, Added, Tree, Changes;
    var t := Created(w.next + 1, parent, spec, widths);
    TreeFacts(w);
    CreatedFacts(w.next + 1, parent, spec, widths);
    AddedKeys(w.widgets, parent, t);
    AddedAt(w.widgets, parent, t, t.id);
  }

  lemma EnablingAt(w: Window, changed: int, enabled: bool, id: int)
    requires changed in w.widgets && id in w.widgets
    ensures var b := EnabledSet(w, changed, enabled);
            id in b.widgets && ReadingOf(b.widgets[id]) == ReadingOf(w.widgets[id]) && b.changes == w.changes
  {
  }

  /** Every move, seen from one widget. */
  lemma MoveAt(a: Situation, m: Move, b: Situation, id: int)
    requires Sound(a) && Moves(a, m, b) && id in a.window.widgets
    ensures id in b.window.widgets && id in b.ledger.known
    ensures ReadingOf(b.window.widgets[id]) == ReadingAfter(a, m, b, id)
    ensures b.ledger.known[id] == BeliefAfter(a, m, id)
    ensures id in b.window.changes <==> QueuedAfter(a, m, b, id)
    ensures ReadingOf(b.window.widgets[id]) == Nothing <==> ReadingOf(a.window.widgets[id]) == Nothing
  {
    match m {
      case UserActs => UserActsAt(a, b, id);
      case Reporting => EventsAt(a, m, b, id);
      case Sending(_) => EventsAt(a, m, b, id);
      case Closing => EventsAt(a, m, b, id);
      case Putting(_, _) => PutAt(a, m, b, id);
      case _ => OtherAt(a, m, b, id);
    }
    hide Moves, Sound, Learned, BeliefAfter;
    if !m.UserActs? && !m.Putting? {
      hide ReadingOf;
    } else {
      ReadableKinds(a.window.widgets[id], b.window.widgets[id]);
    }
  }

  lemma ReadableKinds(a: Widget, b: Widget)
    requires a.kind == b.kind
    ensures ReadingOf(a) == Nothing <==> ReadingOf(b) == Nothing
  {
  }

  /** What makes the program wrong for good, and what ends it: a widget is lost after
      a move exactly if it was lost and the move did not teach it, or its change was
      dropped just now. */
  lemma LostAfter(a: Situation, m: Move, b: Situation, id: int)
    requires Sound(a) && Moves(a, m, b) && id in a.window.widgets
    ensures Lost(b, id) <==> (Lost(a, id) && !Taught(a, m, b, id)) || Dropped(a, m, id)
  {
    MoveAt(a, m, b, id);
    hide Moves, ReadingOf, Learned, Solicited, Whole;
  }

  /** Every move keeps a session sound, and a listened widget is never lost. */
  lemma MoveKeeps(a: Situation, m: Move, b: Situation)
    requires Sound(a) && Moves(a, m, b)
    ensures Sound(b) && Onward(a, b)
  {
    MoveKeepsSolicited(a, m, b);
    forall id | id in a.window.widgets
      ensures id in b.window.widgets && id in b.ledger.known
      ensures ReadingOf(b.window.widgets[id]) == Nothing ==> b.ledger.known[id] == Nothing
      ensures id in a.ledger.changes && Lost(b, id) ==> Lost(a, id)
    {
      MoveAt(a, m, b, id);
      LostAfter(a, m, b, id);
      BeliefOfNothing(a, m, b, id);
    }
    MoveShape(a, m, b);
    hide Moves, ReadingOf, Solicited, Lost, Whole;
  }

  lemma BeliefOfNothing(a: Situation, m: Move, b: Situation, id: int)
    requires Sound(a) && Moves(a, m, b) && id in a.window.widgets
    ensures id in b.window.widgets
    ensures ReadingOf(b.window.widgets[id]) == Nothing ==> BeliefAfter(a, m, id) == Nothing
  {
    MoveAt(a, m, b, id);
    hide Moves, ReadingOf, Learned, Solicited, Whole;
  }

  /** A move adds at most one widget, which the program knows, and forgets nothing. */
  lemma MoveShape(a: Situation, m: Move, b: Situation)
    requires Sound(a) && Moves(a, m, b)
    ensures a.ledger.out <= b.ledger.out && a.ledger.cursor <= b.ledger.cursor
    ensures (a.ledger.closed ==> b.ledger.closed) && (a.ledger.closedSent ==> b.ledger.closedSent)
    ensures (a.ledger.listenKey ==> b.ledger.listenKey)
    ensures a.ledger.clicks <= b.ledger.clicks <= b.window.widgets.Keys
    ensures a.ledger.changes <= b.ledger.changes <= b.window.widgets.Keys
    ensures b.ledger.known.Keys == b.window.widgets.Keys && a.window.widgets.Keys <= b.window.widgets.Keys
    ensures forall id :: id in b.window.widgets && id !in a.window.widgets ==>
              b.ledger.known[id] == ReadingOf(b.window.widgets[id])
  {
    hide Moves, Sound, ReadingOf;
    if m.Adding? {
      AddingShape(a, m, b);
    } else {
      OtherShape(a, m, b);
    }
  }

  /** A move forgets nothing of the ledger, and the program knows every new widget. */
  ghost predicate Shaped(a: Situation, b: Situation) {
    && a.ledger.out <= b.ledger.out && a.ledger.cursor <= b.ledger.cursor
    && (a.ledger.closed ==> b.ledger.closed) && (a.ledger.closedSent ==> b.ledger.closedSent)
    && (a.ledger.listenKey ==> b.ledger.listenKey)
    && a.ledger.clicks <= b.ledger.clicks <= b.window.widgets.Keys
    && a.ledger.changes <= b.ledger.changes <= b.window.widgets.Keys
    && b.ledger.known.Keys == b.window.widgets.Keys && a.window.widgets.Keys <= b.window.widgets.Keys
    && forall id :: id in b.window.widgets && id !in a.window.widgets ==>
         b.ledger.known[id] == ReadingOf(b.window.widgets[id])
  }

  lemma AddingShape(a: Situation, m: Move, b: Situation)
    requires Sound(a) && Moves(a, m, b) && m.Adding?
    ensures Shaped(a, b)
  {
    hide Solicited, Heard, Reports, ReadingOf, AddProblem, WindowAdded, FirstReading, Whole;
    AddShape(a, m, b);
  }

  lemma OtherShape(a: Situation, m: Move, b: Situation)
    requires Sound(a) && Moves(a, m, b) && !m.Adding?
    ensures Shaped(a, b)
  {
    hide Solicited, Heard, Reports, ReadingOf, Learned, Put, AddProblem, WindowAdded, Whole;
  }

  lemma AddShape(a: Situation, m: Move, b: Situation)
    requires Sound(a) && Moves(a, m, b) && m.Adding?
    ensures b.window.widgets.Keys == a.window.widgets.Keys + {b.window.next} == b.ledger.known.Keys
    ensures b.ledger.known[b.window.next] == ReadingOf(b.window.widgets[b.window.next])
    ensures b.window.next !in a.window.widgets
  {
    hide Solicited, ReadingOf, FirstReading, Created, Whole, AddProblem, WindowAdded, Heard;
    KnownAll(a);
    AddedShape(a.window, m.parent, m.spec, m.widths);
    FirstReadingRead(b.window.next, m.parent, m.spec, m.widths);
  }

  // ---- runs ------------------------------------------------------------------------------

  ghost predicate IsRun(run: seq<Situation>, moves: seq<Move>) {
    |run| == |moves| + 1 && forall i :: 0 <= i < |moves| ==> Moves(run[i], moves[i], run[i + 1])
  }

  /** Some move of a part of a run taught the program about a widget. */
  ghost predicate TaughtWithin(run: seq<Situation>, moves: seq<Move>, i: nat, j: nat, id: int)
    requires |run| == |moves| + 1 && j <= |moves|
  {
    exists k :: i <= k < j && Taught(run[k], moves[k], run[k + 1], id)
  }

  /** From the moment a program listens to a widget: it is lost later exactly if it was
      lost then and nothing has taught it since. */
  lemma {:induction false} LostSince(run: seq<Situation>, moves: seq<Move>, i: nat, j: nat, id: int)
    requires IsRun(run, moves) && i <= j <= |moves| && Sound(run[i]) && id in run[i].ledger.changes
    ensures Sound(run[j]) && id in run[j].ledger.changes
    ensures Lost(run[j], id) <==> Lost(run[i], id) && !TaughtWithin(run, moves, i, j, id)
    decreases j
  {
    hide Moves, Lost, Taught, Sound, IsRun, Right;
    if i < j {
      var k := j - 1;
      RunAt(run, moves, k);
      LostSince(run, moves, i, k, id);
      ListenedThere(run[k], id);
      MoveKeeps(run[k], moves[k], run[j]);
      LostAfter(run[k], moves[k], run[j], id);
      TaughtOneMore(run, moves, i, k, id);
    }
  }

  lemma RunAt(run: seq<Situation>, moves: seq<Move>, k: nat)
    requires IsRun(run, moves) && k < |moves|
    ensures |run| == |moves| + 1 && Moves(run[k], moves[k], run[k + 1])
  {
  }

  lemma ListenedThere(s: Situation, id: int)
    requires Sound(s) && id in s.ledger.changes
    ensures id in s.window.widgets
  {
  }

  lemma TaughtOneMore(run: seq<Situation>, moves: seq<Move>, i: nat, k: nat, id: int)
    requires |run| == |moves| + 1 && i <= k < |moves|
    ensures TaughtWithin(run, moves, i, k + 1, id) <==>
            TaughtWithin(run, moves, i, k, id) || Taught(run[k], moves[k], run[k + 1], id)
  {
    hide Taught;
  }

  /** The promise of change events, exactly: for a widget listened to from some point of
      a run, a later report leaves the program right about it if and only if the widget
      was not lost at that point, or the program was taught about it since. */
  lemma ReportsAreRight(run: seq<Situation>, moves: seq<Move>, i: nat, j: nat, id: int)
    requires IsRun(run, moves) && i <= j < |moves| && Sound(run[i])
    requires id in run[i].ledger.changes && moves[j].Reporting?
    ensures Right(run[j + 1], id) <==> !Lost(run[i], id) || TaughtWithin(run, moves, i, j + 1, id)
  {
    LostSince(run, moves, i, j + 1, id);
    RunAt(run, moves, j);
    hide ReadingOf, Solicited, TaughtWithin, Whole, Heard;
  }

  /** A session just begun, with a window that holds no widget yet. */
  ghost predicate IsNew(s: Situation) {
    && s.ledger == Ledger(false, false, false, {}, {}, 0, [], map[])
    && s.window.widgets == map[] && s.window.changes == []
  }

  /** A report of the run dropped a widget's change, and nothing up to j has made up for it. */
  ghost predicate DroppedSince(run: seq<Situation>, moves: seq<Move>, k: nat, j: nat, id: int)
    requires |run| == |moves| + 1 && k < j <= |moves|
  {
    Dropped(run[k], moves[k], id) && !TaughtWithin(run, moves, k + 1, j, id)
  }

  /** Some report before i dropped a change for which nothing up to j has made up. */
  ghost predicate DroppedBefore(run: seq<Situation>, moves: seq<Move>, i: nat, j: nat, id: int)
    requires |run| == |moves| + 1 && i <= j <= |moves|
  {
    exists k :: 0 <= k < i && DroppedSince(run, moves, k, j, id)
  }

  lemma NewIsSound(s: Situation)
    requires IsNew(s)
    ensures Sound(s)
  {
  }

  /** In a run of a new session, a widget is lost exactly if a report has dropped its change
      and nothing has taught the program since. */
  lemma {:induction false} LostFromStart(run: seq<Situation>, moves: seq<Move>, i: nat, id: int)
    requires IsRun(run, moves) && i <= |moves| && IsNew(run[0])
    ensures Sound(run[i]) && (Lost(run[i], id) <==> DroppedBefore(run, moves, i, i, id))
    ensures id !in run[i].window.widgets ==> !DroppedBefore(run, moves, i, i, id)
    decreases i
  {
    hide Moves, Lost, Taught, Dropped, Sound, IsRun, Right;
    assert |run| == |moves| + 1 by {
      RunLength(run, moves);
    }
    if i == 0 {
      NewIsSound(run[0]);
      NoneLost(run[0], id);
    } else {
      var k := i - 1;
      LostFromStart(run, moves, k, id);
      RunAt(run, moves, k);
      MoveKeeps(run[k], moves[k], run[i]);
      OneMoreDrop(run, moves, k, id);
      if id in run[k].window.widgets {
        LostAfter(run[k], moves[k], run[i], id);
      } else {
        NewlyKnown(run[k], moves[k], run[i], id);
      }
    }
  }

  lemma RunLength(run: seq<Situation>, moves: seq<Move>)
    requires IsRun(run, moves)
    ensures |run| == |moves| + 1
  {
  }

  lemma NoneLost(s: Situation, id: int)
    requires IsNew(s)
    ensures !Lost(s, id)
  {
  }

  /** A widget that comes with a move is known with it, and no earlier change of it was dropped. */
  lemma NewlyKnown(a: Situation, m: Move, b: Situation, id: int)
    requires Sound(a) && Moves(a, m, b) && id !in a.window.widgets
    ensures !Lost(b, id) && !Dropped(a, m, id)
  {
    MoveShape(a, m, b);
    hide Moves, Sound, ReadingOf;
  }

  lemma OneMoreDrop(run: seq<Situation>, moves: seq<Move>, k: nat, id: int)
    requires |run| == |moves| + 1 && k < |moves|
    ensures DroppedBefore(run, moves, k + 1, k + 1, id) <==>
            (DroppedBefore(run, moves, k, k, id) && !Taught(run[k], moves[k], run[k + 1], id))
            || Dropped(run[k], moves[k], id)
  {
    hide Taught, Dropped;
    if DroppedBefore(run, moves, k + 1, k + 1, id) {
      var j :| 0 <= j < k + 1 && DroppedSince(run, moves, j, k + 1, id);
      if j < k {
        TaughtOneMore(run, moves, j + 1, k, id);
        assert DroppedSince(run, moves, j, k, id);
      }
    }
    if DroppedBefore(run, moves, k, k, id) && !Taught(run[k], moves[k], run[k + 1], id) {
      var j :| 0 <= j < k && DroppedSince(run, moves, j, k, id);
      TaughtOneMore(run, moves, j + 1, k, id);
      assert DroppedSince(run, moves, j, k + 1, id);
    }
    if Dropped(run[k], moves[k], id) {
      assert DroppedSince(run, moves, k, k + 1, id);
    }
  }

  /** The promise of change events in the run's own terms. For a new session, and a widget
      listened to from some point of the run, a later report leaves the program right about
      it if and only if for every report before that point which dropped the widget's change,
      the program was taught since. */
  lemma ReportsRightFromStart(run: seq<Situation>, moves: seq<Move>, i: nat, j: nat, id: int)
    requires IsRun(run, moves) && i <= j < |moves| && IsNew(run[0])
    requires id in run[i].ledger.changes && moves[j].Reporting?
    ensures |run| == |moves| + 1
    ensures Right(run[j + 1], id) <==> !DroppedBefore(run, moves, i, j + 1, id)
  {
    hide Moves, Lost, Taught, Dropped, Sound, IsRun, Right;
    RunLength(run, moves);
    LostFromStart(run, moves, i, id);
    ReportsAreRight(run, moves, i, j, id);
    if DroppedBefore(run, moves, i, j + 1, id) {
      var k :| 0 <= k < i && DroppedSince(run, moves, k, j + 1, id);
      TaughtEither(run, moves, k + 1, i, j + 1, id);
      assert DroppedSince(run, moves, k, i, id);
    }
    if DroppedBefore(run, moves, i, i, id) && !TaughtWithin(run, moves, i, j + 1, id) {
      var k :| 0 <= k < i && DroppedSince(run, moves, k, i, id);
      TaughtEither(run, moves, k + 1, i, j + 1, id);
      assert DroppedSince(run, moves, k, j + 1, id);
    }
  }

  lemma TaughtEither(run: seq<Situation>, moves: seq<Move>, i: nat, k: nat, j: nat, id: int)
    requires |run| == |moves| + 1 && i <= k <= j <= |moves|
    ensures TaughtWithin(run, moves, i, j, id) <==>
            TaughtWithin(run, moves, i, k, id) || TaughtWithin(run, moves, k, j, id)
  {
    hide Taught;
  }

  /** A run from one situation to another. */
  ghost predicate RunsBetween(a: Situation, run: seq<Situation>, moves: seq<Move>, b: Situation) {
    |run| == |moves| + 1 && IsRun(run, moves) && run[0] == a && run[|moves|] == b
  }

  lemma NoMove(a: Situation)
    ensures RunsBetween(a, [a], [], a)
  {
  }

  lemma MoveMore(a: Situation, run: seq<Situation>, moves: seq<Move>, b: Situation, m: Move, c: Situation)
    requires RunsBetween(a, run, moves, b) && Moves(b, m, c)
    ensures RunsBetween(a, run + [c], moves + [m], c)
  {
    hide Moves;
    var longer, more := run + [c], moves + [m];
    forall i | 0 <= i < |more|
      ensures Moves(longer[i], more[i], longer[i + 1])
    {
      if i < |moves| {
        assert Moves(run[i], moves[i], run[i + 1]);
      }
    }
  }

  lemma RunsJoin(a: Situation, run: seq<Situation>, moves: seq<Move>, b: Situation,
                 more: seq<Situation>, others: seq<Move>,
                 c: Situation)
    requires RunsBetween(a, run, moves, b) && RunsBetween(b, more, others, c)
    ensures RunsBetween(a, run + more[1..], moves + others, c)
  {
    hide Moves;
    var longer, all := run + more[1..], moves + others;
    forall i | 0 <= i < |all|
      ensures Moves(longer[i], all[i], longer[i + 1])
    {
      if i < |moves| {
        assert Moves(run[i], moves[i], run[i + 1]);
      } else {
        var k := i - |moves|;
        assert Moves(more[k], others[k], more[k + 1]);
      }
    }
  }

  /** A new session of a new window. */
  function FirstSituation(width: int, height: int): Situation {
    Situation(Ledger(false, false, false, {}, {}, 0, [], map[]),
              Window(width, height, false, map[], [], 0, 0, 0, 0, 0, Rect(0, 0, 0, 0), 0, 0, []))
  }

  lemma FirstIsSound(width: int, height: int)
    requires 1 <= width <= MAX_DIMENSION && 1 <= height <= MAX_DIMENSION
    ensures Sound(FirstSituation(width, height)) && Whole(FirstSituation(width, height).window)
  {
  }

  function PlainSpec(kind: Kind): Spec {
    Spec(kind, [], [], false, 0, 0, [], [], [], -1)
  }

  lemma AddedWhole(w: Window, parent: int, spec: Spec)
    requires Whole(w) && AddProblem(w, parent, spec).None?
    ensures Whole(WindowAdded(w, parent, spec, [])) && WindowAdded(w, parent, spec, []).next == w.next + 1
  {
    AddKeepsWhole(w, parent, spec, []);
    hide Whole, AddProblem, Added, Created;
  }

  lemma AddPlain(a: Situation, parent: int, kind: Kind) returns (b: Situation)
    requires Whole(a.window) && AddProblem(a.window, parent, PlainSpec(kind)).None? && kind != TableView
    ensures b == Situation(a.ledger.(known := a.ledger.known[a.window.next + 1 := FirstReading(PlainSpec(kind))]),
                           WindowAdded(a.window, parent, PlainSpec(kind), []))
    ensures Moves(a, Adding(parent, PlainSpec(kind), []), b)
  {
    hide Whole, AddProblem, WindowAdded, FirstReading, PlainSpec, Heard;
    AddedWhole(a.window, parent, PlainSpec(kind));
    assert a.ledger.out + [] == a.ledger.out;
    b := Situation(a.ledger.(known := a.ledger.known[a.window.next + 1 := FirstReading(PlainSpec(kind))]),
                   WindowAdded(a.window, parent, PlainSpec(kind), []));
  }

  /** The user toggles a Checkbox. */
  lemma Toggled(a: Situation, id: int) returns (b: Situation)
    requires Whole(a.window) && id in a.window.widgets && a.window.widgets[id].kind == Checkbox
    requires a.window.changes == []
    ensures var t := a.window.widgets[id];
            b == a.(window := a.window.(widgets := a.window.widgets[id := t.(checked := !t.checked)], changes := [id]))
    ensures Moves(a, UserActs, b)
  {
    var w, t := a.window, a.window.widgets[id].(checked := !a.window.widgets[id].checked);
    WidgetFacts(w, id);
    ToggleInside(w.widgets[id]);
    SameNodeOf(w.widgets[id], t);
    hide Whole, WidgetInside;
    UpdateKeepsWhole(w, id, t);
    NotingKeepsChanges(w.(widgets := w.widgets[id := t]), id);
    UserUpdates(w.widgets, id, t, [], [id]);
    assert [] + [id] == [id];
    b := a.(window := w.(widgets := w.widgets[id := t], changes := [id]));
  }

  lemma EmptiedWhole(w: Window)
    requires Whole(w)
    ensures Whole(w.(changes := []))
  {
    hide Tree, AllInside, Pointers, Numbered;
  }

  /** A run that starts with a new session and ends with a lost widget: a Column and a
      Checkbox are added, the user toggles the Checkbox, a report drops the change, and
      only then does the program listen. By ReportsAreRight no report alone helps it. */
  lemma DroppedBeforeListening() returns (run: seq<Situation>, moves: seq<Move>)
    ensures |run| == 6 && RunsBetween(FirstSituation(100, 100), run, moves, run[5]) && Sound(run[0])
    ensures moves == [Adding(0, PlainSpec(Column), []), Adding(1, PlainSpec(Checkbox), []), UserActs, Reporting,
                      Listening(ListenChange(2))]
    ensures 2 in run[2].window.widgets && run[2].window.widgets[2].kind == Checkbox
    ensures run[3].window.widgets == run[2].window.widgets[2 := run[2].window.widgets[2].(checked := true)]
    ensures Whole(run[5].window) && 2 in run[5].ledger.changes && run[5].window.changes == [] && Lost(run[5], 2)
  {
    hide Whole, IsRun, Moves, FirstSituation, PlainSpec, Sound, Lost;
    var s0 := FirstSituation(100, 100);
    FirstIsSound(100, 100);
    NoMove(s0);
    var s1, s2 := ColumnAndCheckbox();
    var column, checkbox := Adding(0, PlainSpec(Column), []), Adding(1, PlainSpec(Checkbox), []);
    MoveMore(s0, [s0], [], s0, column, s1);
    MoveMore(s0, [s0] + [s1], [] + [column], s1, checkbox, s2);
    run, moves := DroppedAfterAdding(s0, [s0] + [s1] + [s2], [] + [column] + [checkbox], s2);
    assert run[0] == run[..3][0] && run[2] == run[..3][2];
  }

  lemma ColumnAndCheckbox() returns (s1: Situation, s2: Situation)
    ensures Moves(FirstSituation(100, 100), Adding(0, PlainSpec(Column), []), s1)
    ensures Moves(s1, Adding(1, PlainSpec(Checkbox), []), s2) && Whole(s2.window)
    ensures s2.window.changes == [] && s2.ledger.changes == {} && 2 in s2.window.widgets && 2 in s2.ledger.known
    ensures s2.window.widgets[2].kind == Checkbox && !s2.window.widgets[2].checked
    ensures s2.ledger.known[2] == CheckReading(false)
  {
    hide Whole, Moves;
    var s0 := FirstSituation(100, 100);
    FirstIsSound(100, 100);
    s1 := AddPlain(s0, 0, Column);
    AddedWhole(s0.window, 0, PlainSpec(Column));
    s2 := AddPlain(s1, 1, Checkbox);
    AddedWhole(s1.window, 1, PlainSpec(Checkbox));
  }

  lemma DroppedAfterAdding(a: Situation, before: seq<Situation>, added: seq<Move>, s: Situation)
    returns (run: seq<Situation>, moves: seq<Move>)
    requires RunsBetween(a, before, added, s) && |added| == 2 && |before| == 3 && Whole(s.window)
    requires s.window.changes == [] && s.ledger.changes == {} && 2 in s.window.widgets && 2 in s.ledger.known
    requires s.window.widgets[2].kind == Checkbox && !s.window.widgets[2].checked
    requires s.ledger.known[2] == CheckReading(false)
    ensures moves == added + [UserActs, Reporting, Listening(ListenChange(2))] && |run| == 6 && run[..3] == before
    ensures RunsBetween(a, run, moves, run[5])
    ensures run[3].window.widgets == s.window.widgets[2 := s.window.widgets[2].(checked := true)]
    ensures Whole(run[5].window) && 2 in run[5].ledger.changes && run[5].window.changes == [] && Lost(run[5], 2)
  {
    hide Whole, IsRun;
    var s3 := Toggled(s, 2);
    MoveMore(a, before, added, s, UserActs, s3);
    var s4 := s3.(window := s3.window.(changes := []));
    EmptiedWhole(s3.window);
    Unheard(s3);
    MoveMore(a, before + [s3], added + [UserActs], s3, Reporting, s4);
    var s5 := s4.(ledger := s4.ledger.(changes := {2}));
    MoveMore(a, before + [s3] + [s4], added + [UserActs] + [Reporting], s4, Listening(ListenChange(2)), s5);
    run := before + [s3] + [s4] + [s5];
    moves := added + [UserActs] + [Reporting] + [Listening(ListenChange(2))];
  }

  /** A report sends nothing to a program that listens to nothing. */
  lemma {:induction false} NothingReported(taken: seq<int>, widgets: map<int, Widget>)
    ensures Reports(taken, {}, widgets) == []
  {
    if taken != [] {
      NothingReported(taken[..|taken| - 1], widgets);
    }
  }

  lemma Unheard(s: Situation)
    requires Whole(s.window) && s.ledger.changes == {}
    ensures Whole(s.window.(changes := [])) && Moves(s, Reporting, s.(window := s.window.(changes := [])))
  {
    hide Whole, Reports, Heard;
    HeardNothing(s.ledger.known);
    EmptiedWhole(s.window);
    NothingReported(s.window.changes, s.window.widgets);
    assert s.ledger.out + [] == s.ledger.out;
  }

  // ---- a scripted window -------------------------------------------------------------------

  /** A widget after a scripted step of the user on it. A caret always lies in its text. */
  function Touched(t: Widget, step: Step): Widget {
    match step
    case TypeStep(_, text) => if TakesText(t) && !t.disabled && 0 <= t.caret <= |t.text| then Typed(t, text) else t
    case ToggleStep(_) => if t.kind == Checkbox && !t.disabled then t.(checked := !t.checked) else t
    case SelectStep(_, index) => if t.Selecting() then UserSelected(t, index) else t
    case _ => t
  }

  /** The window after a scripted step of the user on one widget: a new reading is queued. */
  function Acted(w: Window, step: Step): Window
    requires step.Acting()
  {
    if step.id !in w.widgets then w else
      var t := Touched(w.widgets[step.id], step);
      w.(widgets := w.widgets[step.id := t],
         changes := if ReadingOf(t) == ReadingOf(w.widgets[step.id]) then w.changes else Noting(w.changes, step.id))
  }

  /** The window after the user gave it a size. */
  function Resized(w: Window, width: int, height: int): Window {
    var newWidth, newHeight := Clamp(width, 1, MAX_DIMENSION), Clamp(height, 1, MAX_DIMENSION);
    if newWidth == w.width && newHeight == w.height then w else ListClosed(w).(width := newWidth, height := newHeight)
  }

  /** The situation after a report. */
  function Reported(s: Situation): Situation {
    Situation(Told(s.ledger, Reports(s.window.changes, s.ledger.changes, s.window.widgets)), s.window.(changes := []))
  }

  /** The situation after one step of the script. */
  function StepDone(s: Situation, step: Step): Situation {
    match step
    case ResizeStep(w, h) => if s.window.resizable then s.(window := Resized(s.window, w, h)) else s
    case ClickStep(id) =>
      if id in s.ledger.clicks && id in s.window.widgets && !s.window.widgets[id].disabled
      then s.(ledger := Told(s.ledger, [ClickEvent(id)])) else s
    case KeyStep(name) => if s.ledger.listenKey then s.(ledger := Told(s.ledger, [KeyEvent(name)])) else s
    case OtherStep => s
    case _ => Reported(s.(window := Acted(s.window, step)))
  }

  /** A click on a Button that is missing, disabled or not listened to, a key nobody listens
      to, and a new size for a window that takes none do nothing. */
  lemma StepIgnored(s: Situation, step: Step)
    requires || (step.ClickStep? && (step.id !in s.ledger.clicks || step.id !in s.window.widgets
                                     || s.window.widgets[step.id].disabled))
             || (step.KeyStep? && !s.ledger.listenKey) || (step.ResizeStep? && !s.window.resizable) || step.OtherStep?
    ensures StepDone(s, step) == s
  {
  }

  /** Any other click or key is told at once, and nothing else. */
  lemma StepTold(s: Situation, step: Step)
    ensures step.ClickStep? && step.id in s.ledger.clicks && step.id in s.window.widgets
            && !s.window.widgets[step.id].disabled ==>
              StepDone(s, step).ledger.out == s.ledger.out + [ClickEvent(step.id)]
              && StepDone(s, step).window == s.window
    ensures step.KeyStep? && s.ledger.listenKey ==>
              StepDone(s, step).ledger.out == s.ledger.out + [KeyEvent(step.name)]
              && StepDone(s, step).window == s.window
  {
    hide Heard, Reported, Acted, Resized;
  }

  /** A window takes the new size as far as it is between 1 and 4096 pixels, and a size that
      is new closes an open list. */
  lemma ResizedWithin(w: Window, width: int, height: int)
    requires 1 <= w.width <= 4096 && 1 <= w.height <= 4096
    ensures var r := Resized(w, width, height);
            && 1 <= r.width <= 4096 && 1 <= r.height <= 4096
            && (1 <= width <= 4096 ==> r.width == width) && (1 <= height <= 4096 ==> r.height == height)
            && (width < 1 ==> r.width == 1) && (width > 4096 ==> r.width == 4096)
            && (height < 1 ==> r.height == 1) && (height > 4096 ==> r.height == 4096)
            && (r.width == w.width && r.height == w.height ==> r == w)
            && (r.width != w.width || r.height != w.height ==>
                  r == ListClosed(w).(width := r.width, height := r.height))
  {
    hide ListClosed;
  }

  /** The user cannot change a disabled widget, scripted or not. */
  lemma DisabledUntouched(t: Widget, step: Step)
    requires t.disabled
    ensures Touched(t, step) == t
  {
    hide Typed;
  }

  /** The situation after the window closed. */
  function ClosedNow(s: Situation): Situation {
    var l := if s.ledger.closedSent then s.ledger
             else Told(s.ledger, [ClosedEvent(ValuesOf(s.window.widgets, s.window.order))]);
    s.(ledger := l.(closed := true, closedSent := true))
  }

  /** The situation after the next event of the script: every step up to it is done, and a
      script without another event closes the window. */
  function Advanced(s: Situation, script: seq<Step>): Situation
    decreases |script| - s.ledger.cursor
  {
    if s.ledger.cursor >= |script| then ClosedNow(s) else
      var t := StepDone(s.(ledger := s.ledger.(cursor := s.ledger.cursor + 1)), script[s.ledger.cursor]);
      if |t.ledger.out| > |s.ledger.out| then t else Advanced(t, script)
  }

  /** The queue after the user changed one widget follows from the two readings. */
  lemma StepNotes(a: map<int, Widget>, id: int, t: Widget, before: seq<int>, after: seq<int>)
    requires id in a && UserStep(a, a[id := t], before, after) && Changes(a[id := t], after)
    ensures after == if ReadingOf(t) == ReadingOf(a[id]) then before else Noting(before, id)
  {
    hide SameStructure, ReadingOf;
    var b := a[id := t];
    assert |after| > |before| + 1 ==> after[|before|] != after[|before| + 1];
    forall i | |before| <= i < |after|
      ensures after[i] == id && id !in before && ReadingOf(t) != ReadingOf(a[id])
    {
      assert after[i] in after && after[i] in b;
      assert forall j :: 0 <= j < |before| ==> before[j] == after[j] != after[i];
    }
    assert id in b && after == before + after[|before|..];
    assert id in after <==> id in before || ReadingOf(a[id]) != ReadingOf(b[id]);
    if |after| == |before| {
      assert after == before;
    } else {
      assert after[|before|] == id && id !in before && ReadingOf(t) != ReadingOf(a[id]);
      assert after[|before|..] == [id];
      assert after == before + [id];
    }
  }

  lemma AdvancedStep(s: Situation, script: seq<Step>)
    requires s.ledger.cursor < |script|
    ensures var t := StepDone(s.(ledger := s.ledger.(cursor := s.ledger.cursor + 1)), script[s.ledger.cursor]);
            Advanced(s, script) == if |t.ledger.out| > |s.ledger.out| then t else Advanced(t, script)
  {
    hide StepDone;
  }

  lemma AdvancedEnd(s: Situation, script: seq<Step>)
    requires s.ledger.cursor >= |script|
    ensures Advanced(s, script) == ClosedNow(s)
  {
  }

  /** A step of the user on one widget that is done as it should be is done entirely. */
  lemma ActedExactly(a: Window, step: Step, b: Window)
    requires step.Acting() && step.id in a.widgets && b == a.(widgets := b.widgets, changes := b.changes)
    requires b.widgets == a.widgets[step.id := Touched(a.widgets[step.id], step)]
    requires UserStep(a.widgets, b.widgets, a.changes, b.changes) && Changes(b.widgets, b.changes)
    ensures b == Acted(a, step)
  {
    hide UserStep, Touched, ReadingOf, Changes;
    StepNotes(a.widgets, step.id, Touched(a.widgets[step.id], step), a.changes, b.changes);
  }

  lemma NobodyActed(w: Window, step: Step)
    requires step.Acting() && step.id !in w.widgets
    ensures Acted(w, step) == w
  {
  }

  lemma FewActed(w: Window, step: Step)
    requires step.Acting() && w.changes == []
    ensures |Acted(w, step).changes| <= 1
  {
    hide Touched, ReadingOf;
  }

  // ---- answers ---------------------------------------------------------------------------

  /** Why a request to an open window is refused. */
  function ProblemOf(w: Window, r: Request): Option<Problem> {
    match r
    case Add(parent, spec) => AddProblem(w, parent, spec)
    case PutText(id, text) => TextProblem(w.widgets, id, text)
    case PutChecked(id, _) =>
      if id !in w.widgets then Some(NoWidget) else if w.widgets[id].kind != Checkbox then Some(WrongKind) else None
    case PutItems(id, items) =>
      if id !in w.widgets then Some(NoWidget)
      else if w.widgets[id].kind !in {ListBox, Select} then Some(WrongKind)
      else if !ValidItems(items) then Some(Invalid) else None
    case PutRows(id, rows) =>
      if id !in w.widgets then Some(NoWidget)
      else if w.widgets[id].kind != TableView then Some(WrongKind)
      else if !ValidTable(w.widgets[id].columns, rows) then Some(Invalid) else None
    case PutSelected(id, index) => if id !in w.widgets then Some(NoWidget) else SelectProblem(w.widgets, id, index)
    case PutEnabled(id, _) =>
      if id !in w.widgets then Some(NoWidget) else if !w.widgets[id].Interactive() then Some(WrongKind) else None
    case ListenClick(id) => if id in w.widgets then None else Some(NoWidget)
    case ListenChange(id) => if id in w.widgets then None else Some(NoWidget)
    case _ => None
  }

  /** A request that may change the window, done. */
  ghost predicate Performed(a: Situation, r: Request, measure: Text -> nat, reply: Response, b: Situation) {
    match r
    case Add(parent, spec) =>
      reply == Made(a.window.next + 1) && Moves(a, Adding(parent, spec, SpecWidths(measure, spec)), b)
    case PutEnabled(id, enabled) => reply == Done && Moves(a, Enabling(id, enabled), b)
    case PutResizable(allowed) => reply == Done && Moves(a, Allowing(allowed), b)
    case ListenKeys => reply == Done && Moves(a, Listening(r), b)
    case ListenClick(_) => reply == Done && Moves(a, Listening(r), b)
    case ListenChange(_) => reply == Done && Moves(a, Listening(r), b)
    case _ => reply == Done && Moves(a, Putting(measure, r), b)
  }

  /** The answer to every request, and all it does. */
  ghost predicate Answered(a: Situation, r: Request, measure: Text -> nat, reply: Response, b: Situation) {
    match r
    case Status => reply == Open(!a.ledger.closed) && b == a
    case Close => reply == Final(ValuesOf(a.window.widgets, a.window.order)) && Moves(a, AskedToClose, b)
    case Wait => reply == Done && b == a
    case Get(id) =>
      if id !in a.window.widgets then reply == Refused(NoWidget) && b == a
      else
        var t := a.window.widgets[id];
        reply == Read(t.text, t.checked, t.selected) && Moves(a, Fetching(id), b)
    case _ =>
      if a.ledger.closed then reply == Gone && b == a
      else
        match ProblemOf(a.window, r)
        case Some(problem) => reply == Refused(problem) && b == a
        case None => Performed(a, r, measure, reply, b)
  }

  lemma OnwardSelf(s: Situation)
    ensures Onward(s, s)
  {
  }

  lemma KnownAll(s: Situation)
    requires Sound(s)
    ensures s.ledger.known.Keys == s.window.widgets.Keys
  {
  }

  lemma OneHeard(known: map<int, Reading>, e: Output)
    ensures Heard(known, [e]) == HeardOne(known, e)
  {
    HeardMore(known, [], e);
    assert [] + [e] == [e];
  }

  lemma ReportEmpties(a: Situation, b: Situation)
    requires Moves(a, Reporting, b)
    ensures b.window.changes == [] && b.window.widgets == a.window.widgets
  {
  }

  lemma ReportMoves(a: Situation, b: Situation)
    requires Whole(a.window) && Whole(b.window) && b.window == a.window.(changes := [])
    requires var sent := Reports(a.window.changes, a.ledger.changes, a.window.widgets);
             b.ledger == a.ledger.(out := a.ledger.out + sent, known := Heard(a.ledger.known, sent))
    ensures Moves(a, Reporting, b)
  {
    hide Whole, Reports, Heard;
  }

  /** The closed event tells everything. */
  lemma ClosingTells(a: Situation, b: Situation)
    requires Sound(a) && Moves(a, Closing, b) && !a.ledger.closedSent
    ensures forall id :: id in b.window.widgets ==> Right(b, id)
  {
    forall id | id in b.window.widgets
      ensures Right(b, id)
    {
      assert b.window == a.window;
      MoveAt(a, Closing, b, id);
      hide ReadingOf, Heard, Whole, Solicited;
    }
  }

  /** No request reports a change, and a closed window takes none. */
  lemma AnswersAreQuiet(a: Situation, r: Request, measure: Text -> nat, reply: Response, b: Situation)
    requires Answered(a, r, measure, reply, b)
    ensures b.ledger.out == a.ledger.out && b.ledger.cursor == a.ledger.cursor && b.window.changes == a.window.changes
    ensures a.ledger.closed || r.Status? || r.Wait? || r.Get? || r.Close? ==> b.window == a.window
    ensures reply.Refused? || reply.Gone? ==> b == a
  {
    hide Whole, ProblemOf, Put, Learned, AddProblem, Created, Added;
    assert a.ledger.out + [] == a.ledger.out;
  }

  class Session {
    const model: Model
    const script: seq<Step>
    var closed: bool
    var closedSent: bool
    var listenKey: bool
    var clicks: set<int>
    var changes: set<int>
    var cursor: nat
    var out: seq<Output>
    ghost var known: map<int, Reading>   // what the program believes each widget reads

    ghost function Now(): Ledger
      reads this
    {
      Ledger(closed, closedSent, listenKey, clicks, changes, cursor, out, known)
    }

    ghost function Here(): Situation
      reads this, model
    {
      Situation(Now(), model.Now())
    }

    ghost predicate Valid()
      reads this, model
    {
      model.Valid() && Sound(Here()) && cursor <= |script|
    }

    constructor (model: Model, script: seq<Step>)
      requires model.Valid() && model.widgets == map[] && model.changes == []
      ensures Valid() && this.model == model && this.script == script && Now() == FirstSituation(1, 1).ledger
      ensures IsNew(Here())
    {
      this.model, this.script := model, script;
      closed, closedSent, listenKey, clicks, changes, cursor, out := false, false, false, {}, {}, 0, [];
      known := map[];
    }

    /** Sends an event; the program believes it. */
    method Emit(e: Output)
      modifies this`out, this`known
      ensures out == old(out) + [e] && known == HeardOne(old(known), e)
    {
      out := out + [e];
      known := HeardOne(known, e);
    }

    /** The first time, appends one closed event with all readings, which makes the program right about every
        widget; later it appends nothing. */
    method EmitClosed()
      requires Valid()
      modifies this`closed, this`closedSent, this`out, this`known
      ensures Valid() && Onward(old(Here()), Here()) && Moves(old(Here()), Closing, Here())
      ensures closed && closedSent
      ensures out == if old(closedSent) then old(out)
                     else old(out) + [ClosedEvent(ValuesOf(model.widgets, model.order))]
      ensures forall id :: id in model.widgets && !old(closedSent) ==> Right(Here(), id)
      ensures Here() == ClosedNow(old(Here()))
    {
      hide Whole, ReadingOf, Sound, Onward, Solicited;
      closed := true;
      if !closedSent {
        var values := model.Values();
        closedSent := true;
        HeardMore(known, [], ClosedEvent(values));
        assert [] + [ClosedEvent(values)] == [ClosedEvent(values)];
        Emit(ClosedEvent(values));
      } else {
        assert out + [] == out;
      }
      hide Heard, HeardOne, ValuesOf;
      MoveKeeps(old(Here()), Closing, Here());
      if !old(closedSent) {
        ClosingTells(old(Here()), Here());
      }
    }

    /** Appends exactly `Reports` of the queue, which it empties; the answer is whether that was anything. */
    method Changed() returns (sent: bool)
      requires Valid()
      modifies this`out, this`known, model`changes
      ensures Valid() && Onward(old(Here()), Here()) && Moves(old(Here()), Reporting, Here())
      ensures out == old(out) + Reports(old(model.changes), changes, model.widgets)
      ensures sent == (out != old(out)) && Here() == Reported(old(Here()))
    {
      hide Whole, Sound, Onward, Solicited, Heard, Reports, Moves, Tree, Changes, ReadingOf;
      var taken := model.TakeChanges();
      sent := SendReport(taken);
      ReportMoves(old(Here()), Here());
      MoveKeeps(old(Here()), Reporting, Here());
    }

    /** Sends the events of one report. */
    method SendReport(taken: seq<int>) returns (sent: bool)
      modifies this`out, this`known
      ensures out == old(out) + Reports(taken, changes, model.widgets)
      ensures known == Heard(old(known), Reports(taken, changes, model.widgets))
      ensures sent == (out != old(out))
    {
      hide ReadingOf, HeardOne;
      sent := false;
      for i := 0 to |taken|
        invariant out == old(out) + Reports(taken[..i], changes, model.widgets)
        invariant known == Heard(old(known), Reports(taken[..i], changes, model.widgets))
        invariant sent == (Reports(taken[..i], changes, model.widgets) != [])
      {
        assert taken[..i + 1][..i] == taken[..i];
        var id := taken[i];
        if id in changes && id in model.widgets && ReadingOf(model.widgets[id]) != Nothing {
          HeardMore(old(known), Reports(taken[..i], changes, model.widgets),
                    ChangeEvent(id, ReadingOf(model.widgets[id])));
          Emit(ChangeEvent(id, ReadingOf(model.widgets[id])));
          sent := true;
        }
      }
      assert taken[..|taken|] == taken;
    }

    /** A click goes out exactly when its Button is in `clicks`. */
    method Clicked(id: int)
      requires Valid()
      modifies this`out, this`known
      ensures Valid() && Onward(old(Here()), Here())
      ensures if id != 0 && id in clicks then Moves(old(Here()), Sending(ClickEvent(id)), Here())
              else Here() == old(Here())
    {
      hide Whole, Sound, Onward;
      OnwardSelf(Here());
      if id != 0 && id in clicks {
        OneHeard(known, ClickEvent(id));
        Emit(ClickEvent(id));
        MoveKeeps(old(Here()), Sending(ClickEvent(id)), Here());
      }
    }

    /** A key goes out exactly when `listenKey` is set. */
    method PressedKey(name: Text)
      requires Valid()
      modifies this`out, this`known
      ensures Valid() && Onward(old(Here()), Here())
      ensures if listenKey then Moves(old(Here()), Sending(KeyEvent(name)), Here()) else Here() == old(Here())
    {
      hide Whole, Sound, Onward;
      OnwardSelf(Here());
      if listenKey {
        OneHeard(known, KeyEvent(name));
        Emit(KeyEvent(name));
        MoveKeeps(old(Here()), Sending(KeyEvent(name)), Here());
      }
    }

    // ---- the scripted window -----------------------------------------------------

    /** A scripted step of the user on one widget. */
    method Act(step: Step)
      requires Valid() && step.Acting()
      modifies model
      ensures Valid() && Onward(old(Here()), Here()) && Moves(old(Here()), UserActs, Here())
      ensures model.Now() == Acted(old(model.Now()), step)
      ensures old(model.changes) == [] ==> |model.changes| <= 1
    {
      hide Whole, Sound, Onward, UserStep, Acted, ReadingOf, Tree, Changes, Noting;
      ghost var before := model.Now();
      Touch(step);
      MoveKeeps(old(Here()), UserActs, Here());
      if before.changes == [] {
        FewActed(before, step);
      }
    }

    /** Passes a step of the user on to the window. */
    method Touch(step: Step)
      requires model.Valid() && step.Acting()
      modifies model
      ensures model.Valid() && UserStep(old(model.widgets), model.widgets, old(model.changes), model.changes)
      ensures model.Now() == Acted(old(model.Now()), step)
    {
      hide Whole, UserStep, Typed, UserSelected, TakesText, ReadingOf, Tree, Changes, Noting, Acted;
      ghost var before := model.Now();
      var problem: Option<Problem>;
      match step {
        case TypeStep(id, text) => problem := model.TypeInto(id, text);
        case ToggleStep(id) => problem := model.Toggle(id);
        case SelectStep(id, index) => problem := model.Choose(id, index);
      }
      TreeFacts(model.Now());
      if step.id in before.widgets {
        if model.Now() == before {
          assert before.widgets == before.widgets[step.id := before.widgets[step.id]];
        }
        if step.SelectStep? {
          SelectionTaken(before.widgets[step.id], step.index);
        }
        ActedExactly(before, step, model.Now());
      } else {
        NobodyActed(before, step);
      }
    }

    /** Acts and reports. */
    method ActAndReport(step: Step) returns (sent: bool, ghost run: seq<Situation>, ghost moves: seq<Move>)
      requires Valid() && step.Acting()
      modifies this`out, this`known, model
      ensures Valid() && Onward(old(Here()), Here()) && RunsBetween(old(Here()), run, moves, Here())
      ensures moves == [UserActs, Reporting] && Here() == StepDone(old(Here()), step)
      ensures old(model.changes) == [] ==> model.changes == [] && |out| == |old(out)| + if sent then 1 else 0
      ensures if sent then |old(out)| < |out| else out == old(out)
    {
      hide Whole, Sound, Onward, Reports, Moves, IsRun;
      ghost var start := Here();
      Act(step);
      ghost var acted := Here();
      NoMove(start);
      MoveMore(start, [start], [], start, UserActs, acted);
      ghost var taken := model.changes;
      sent := Changed();
      ReportEmpties(acted, Here());
      MoveMore(start, [start] + [acted], [] + [UserActs], acted, Reporting, Here());
      OnwardTwice(start, acted, Here());
      run, moves := [start] + [acted] + [Here()], [] + [UserActs] + [Reporting];
      if |taken| <= 1 {
        FewReports(taken, changes, model.widgets);
      }
    }

    /** Replays one scripted step and reports whether the program heard of it. */
    method Replay(step: Step) returns (sent: bool, ghost run: seq<Situation>, ghost moves: seq<Move>)
      requires Valid()
      modifies this`out, this`known, model
      ensures Valid() && Onward(old(Here()), Here()) && RunsBetween(old(Here()), run, moves, Here())
      ensures old(model.changes) == [] ==> model.changes == [] && |out| == |old(out)| + if sent then 1 else 0
      ensures if sent then |old(out)| < |out| else out == old(out)
      ensures step.ClickStep? && step.id in clicks && step.id in old(model.widgets)
              && !old(model.widgets)[step.id].disabled ==>
        moves == [Sending(ClickEvent(step.id))]
      ensures step.KeyStep? && listenKey ==> moves == [Sending(KeyEvent(step.name))]
      ensures step.Acting() ==> moves == [UserActs, Reporting]
      ensures Here() == StepDone(old(Here()), step)
    {
      hide Whole, Sound, Onward, IsRun;
      ghost var start := Here();
      OnwardSelf(start);
      NoMove(start);
      run, moves := [start], [];
      sent := false;
      if step.Acting() {
        sent, run, moves := ActAndReport(step);
      } else if step.ResizeStep? {
        if model.resizable {
          model.Resize(step.w, step.h);
          QuietStep(start.window.widgets, model.widgets, model.changes);
          hide UserStep;
          MoveKeeps(start, UserActs, Here());
          MoveMore(start, [start], [], start, UserActs, Here());
          run, moves := [start] + [Here()], [] + [UserActs];
        }
      } else if step.ClickStep? {
        if step.id in clicks && step.id in model.widgets && !model.widgets[step.id].disabled {
          PointerFacts(model.Now());
          Clicked(step.id);
          MoveMore(start, [start], [], start, Sending(ClickEvent(step.id)), Here());
          run, moves := [start] + [Here()], [] + [Sending(ClickEvent(step.id))];
          sent := true;
        }
      } else if step.KeyStep? {
        if listenKey {
          PressedKey(step.name);
          MoveMore(start, [start], [], start, Sending(KeyEvent(step.name)), Here());
          run, moves := [start] + [Here()], [] + [Sending(KeyEvent(step.name))];
          sent := true;
        }
      }
    }

    /** A run of moves that sends one event while the window is open: the closed event when the script has no
        other left. */
    method Advance() returns (ghost run: seq<Situation>, ghost moves: seq<Move>)
      requires Valid()
      modifies this, model
      ensures Valid() && Onward(old(Here()), Here()) && RunsBetween(old(Here()), run, moves, Here())
      ensures old(model.changes) == [] ==> model.changes == []
      ensures old(model.changes) == [] && !old(closedSent) ==> |out| == |old(out)| + 1
      ensures old(closedSent) && old(cursor) == |script| ==> out == old(out)
      ensures cursor < |script| ==> |old(out)| < |out| && cursor > old(cursor) && closedSent == old(closedSent)
      ensures Here() == Advanced(old(Here()), script)
    {
      hide Whole, Sound, Onward, IsRun, Moves, StepDone, ClosedNow, Advanced;
      ghost var start := Here();
      OnwardSelf(start);
      NoMove(start);
      run, moves := [start], [];
      while cursor < |script|
        invariant Valid() && Onward(start, Here()) && RunsBetween(start, run, moves, Here())
        invariant out == old(out) && closedSent == old(closedSent) && old(cursor) <= cursor
        invariant old(model.changes) == [] ==> model.changes == []
        invariant Advanced(start, script) == Advanced(Here(), script)
        decreases |script| - cursor
      {
        var step := script[cursor];
        AdvancedStep(Here(), script);
        run, moves := NextStep(start, run, moves);
        ghost var stepped := Here();
        ghost var more, others;
        var sent;
        sent, more, others := Replay(step);
        RunsJoin(start, run, moves, stepped, more, others, Here());
        run, moves := run + more[1..], moves + others;
        OnwardTwice(start, stepped, Here());
        if sent {
          return;
        }
      }
      ghost var before := Here();
      AdvancedEnd(before, script);
      EmitClosed();
      MoveMore(start, run, moves, before, Closing, Here());
      run, moves := run + [Here()], moves + [Closing];
      OnwardTwice(start, before, Here());
    }

    method NextStep(ghost start: Situation, ghost before: seq<Situation>, ghost made: seq<Move>)
      returns (ghost run: seq<Situation>, ghost moves: seq<Move>)
      requires Valid() && cursor < |script| && Onward(start, Here()) && RunsBetween(start, before, made, Here())
      modifies this`cursor
      ensures Valid() && cursor == old(cursor) + 1 && Onward(start, Here()) && RunsBetween(start, run, moves, Here())
      ensures Here() == old(Here()).(ledger := old(Now()).(cursor := cursor))
    {
      hide Whole, Sound, Onward, IsRun;
      ghost var was := Here();
      cursor := cursor + 1;
      assert was.ledger.out + [] == was.ledger.out;
      MoveKeeps(was, Advancing, Here());
      MoveMore(start, before, made, was, Advancing, Here());
      OnwardTwice(start, was, Here());
      run, moves := before + [Here()], made + [Advancing];
    }

    // ---- requests ------------------------------------------------------------------

    /** The reply and the new situation are those of `Answered`: no event and no queued change, no other window
        once closed, and nothing at all after a refusal. */
    method Handle(r: Request) returns (reply: Response, stop: bool)
      requires Valid()
      modifies this, model
      ensures Valid() && Onward(old(Here()), Here())
      ensures Answered(old(Here()), r, model.measure, reply, Here())
      ensures out == old(out) && cursor == old(cursor) && model.changes == old(model.changes)
      ensures stop == r.Close? && (r.Close? ==> closed)
      ensures old(closed) || r.Status? || r.Wait? || r.Get? || r.Close? ==> model.Now() == old(model.Now())
      ensures reply.Refused? || reply.Gone? ==> Here() == old(Here())
    {
      hide Whole, Sound, Onward, ReadingOf, Moves, AddProblem, TextProblem, SelectProblem, ValidItems,
           ValidTable, ValuesOf, PutsOne;
      OnwardSelf(Here());
      stop := false;
      if r.Status? {
        reply := Open(!closed);
      } else if r.Close? {
        reply := HandleClose();
        stop := true;
      } else if r.Wait? {
        reply := Done;
      } else if r.Get? {
        reply := HandleGet(r.id);
      } else if closed {
        reply := Gone;
      } else if r.Add? {
        reply := HandleAdd(r.parent, r.spec);
      } else if r.PutEnabled? || r.PutResizable? {
        reply := HandleShape(r);
      } else if r.Listening() {
        reply := HandleListen(r);
      } else {
        reply := HandlePut(r);
      }
      AnswersAreQuiet(old(Here()), r, model.measure, reply, Here());
    }

    method HandleClose() returns (reply: Response)
      requires Valid()
      modifies this`closed
      ensures Valid() && Onward(old(Here()), Here()) && Moves(old(Here()), AskedToClose, Here())
      ensures reply == Final(ValuesOf(model.widgets, model.order)) && closed
    {
      hide Whole, Sound, Onward;
      closed := true;
      assert out + [] == out;
      MoveKeeps(old(Here()), AskedToClose, Here());
      var values := model.Values();
      reply := Final(values);
    }

    /** Tells the program one widget's reading. */
    method HandleGet(id: int) returns (reply: Response)
      requires Valid()
      modifies this`known
      ensures Valid() && Onward(old(Here()), Here())
      ensures if id in model.widgets then
                reply == Read(model.widgets[id].text, model.widgets[id].checked, model.widgets[id].selected)
                && Moves(old(Here()), Fetching(id), Here()) && Right(Here(), id)
              else reply == Refused(NoWidget) && Here() == old(Here())
    {
      hide Whole, Sound, Onward, ReadingOf;
      OnwardSelf(Here());
      if id !in model.widgets {
        return Refused(NoWidget);
      }
      var t := model.widgets[id];
      known := known[id := ReadingOf(t)];
      assert out + [] == out;
      MoveKeeps(old(Here()), Fetching(id), Here());
      reply := Read(t.text, t.checked, t.selected);
    }

    method HandleListen(r: Request) returns (reply: Response)
      requires Valid() && r.Listening()
      modifies this`listenKey, this`clicks, this`changes
      ensures Valid() && Onward(old(Here()), Here())
      ensures match ProblemOf(model.Now(), r)
              case Some(problem) => reply == Refused(problem) && Here() == old(Here())
              case None => reply == Done && Moves(old(Here()), Listening(r), Here())
    {
      hide Whole, Sound, Onward;
      OnwardSelf(Here());
      assert out + [] == out;
      if !r.ListenKeys? && r.id !in model.widgets {
        return Refused(NoWidget);
      }
      reply := Done;
      match r {
        case ListenKeys => listenKey := true;
        case ListenClick(id) => clicks := clicks + {id};
        case ListenChange(id) => changes := changes + {id};
      }
      MoveKeeps(old(Here()), Listening(r), Here());
    }

    method HandleAdd(parent: int, spec: Spec) returns (reply: Response)
      requires Valid()
      modifies this`known, model
      ensures Valid() && Onward(old(Here()), Here())
      ensures match AddProblem(old(model.Now()), parent, spec)
              case Some(problem) => reply == Refused(problem) && Here() == old(Here())
              case None =>
                reply == Made(old(model.next) + 1)
                && Moves(old(Here()), Adding(parent, spec, SpecWidths(model.measure, spec)), Here())
    {
      hide Whole, Sound, Onward, ReadingOf, AddProblem, Created, Added, FirstReading, ValidTable, WidthsOf;
      OnwardSelf(Here());
      ghost var start := Here();
      var id, problem := model.AddSpec(parent, spec);
      if problem.Some? {
        return Refused(problem.value);
      }
      known := known[id := FirstReading(spec)];
      reply := Made(id);
      ghost var widths := SpecWidths(model.measure, spec);
      assert out + [] == out;
      assert model.Now() == WindowAdded(start.window, parent, spec, widths);
      assert Moves(start, Adding(parent, spec, widths), Here());
      MoveKeeps(start, Adding(parent, spec, widths), Here());
    }

    /** Enabling and resizing. */
    method HandleShape(r: Request) returns (reply: Response)
      requires Valid() && (r.PutEnabled? || r.PutResizable?)
      modifies model
      ensures Valid() && Onward(old(Here()), Here())
      ensures match ProblemOf(old(model.Now()), r)
              case Some(problem) => reply == Refused(problem) && Here() == old(Here())
              case None => reply == Done && Performed(old(Here()), r, model.measure, reply, Here())
    {
      hide Whole, Sound, Onward, EnabledSet;
      OnwardSelf(Here());
      assert out + [] == out;
      reply := Done;
      match r {
        case PutEnabled(id, enabled) =>
          var problem := model.SetEnabled(id, enabled);
          if problem.Some? {
            return Refused(problem.value);
          }
          MoveKeeps(old(Here()), Enabling(id, enabled), Here());
        case PutResizable(allowed) =>
          model.SetResizable(allowed);
          MoveKeeps(old(Here()), Allowing(allowed), Here());
      }
    }

    /** New text, check states, entries and selections: one widget changes, and the
        program knows how. */
    method HandlePut(r: Request) returns (reply: Response)
      requires Valid() && r.Putting()
      modifies this`known, model
      ensures Valid() && Onward(old(Here()), Here())
      ensures match ProblemOf(old(model.Now()), r)
              case Some(problem) => reply == Refused(problem) && Here() == old(Here())
              case None =>
                reply == Done && PutsOne(old(Here()), model.measure, r, Here())
                && Performed(old(Here()), r, model.measure, reply, Here())
    {
      hide Whole, Sound, Onward, Put, Learned, ProblemOf, WindowPut;
      OnwardSelf(Here());
      ghost var start := Here();
      var problem := PutInModel(r);
      if problem.Some? {
        return Refused(problem.value);
      }
      reply := Done;
      KnownAll(start);
      known := known[r.id := Learned(start.window.widgets[r.id].kind, known[r.id], r)];
      assert out + [] == out;
      MoveKeeps(start, Putting(model.measure, r), Here());
    }

    method PutInModel(r: Request) returns (problem: Option<Problem>)
      requires model.Valid() && r.Putting()
      modifies model
      ensures model.Valid() && problem == ProblemOf(old(model.Now()), r)
      ensures if problem.Some? then model.Now() == old(model.Now())
              else r.id in old(model.widgets) && r.id in model.widgets
                   && Put(model.measure, old(model.widgets)[r.id], r, model.widgets[r.id])
                   && model.Now() == WindowPut(old(model.Now()), r, model.widgets[r.id])
    {
      hide Whole, TextSet, Replaced, Revealed, TextProblem, WidthsOf, ValidTable, ValidItems;
      match r {
        case PutText(id, text) =>
          ghost var before := model.widgets;
          problem := model.SetText(id, text);
          if problem.None? {
            TextFits(before, id, text);
          }
        case PutChecked(id, checked) => problem := model.SetChecked(id, checked);
        case PutItems(id, items) => problem := model.SetItems(id, items);
        case PutRows(id, rows) => problem := model.SetRows(id, rows);
        case PutSelected(id, index) => problem := model.SelectIndex(id, index);
      }
    }
  }
}
