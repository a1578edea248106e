/**
 * The intake loop (parteye.py:235-248): read a line, process it if it is a
 * TME label, stop cleanly on an empty line or end of input, stop with a
 * failure on anything else or on an error while processing. Standard input
 * is the sequence of raw lines; an exception Python would leave uncaught
 * ends the run with exit status 1.
 */
module Intake {
  import opened Wrappers
  import opened Text
  import opened ScanLine
  import opened Signer
  import opened Catalog
  import opened Inventory

  /** The outside calls of a run, in order. */
  datatype Event = TmeCall(request: Request) | InventoryCall(call: InvCall)

  /** The exit status, how many lines were read (the last one ended the run), and the calls made. */
  datatype RunResult = RunResult(exitCode: int, linesRead: nat, events: seq<Event>)

  /** What `parse_tme` gives for a line, and what `insert_part` gives for a part. */
  type Lookup = (Result<Part, LookupError>, seq<Request>)
  type Insertion = (Result<Outcome, InsertError>, seq<InvCall>)

  /** How one pass of the loop ends: the run stops with a status, or reads on; with the calls made. */
  datatype Step = Stop(exitCode: int, events: seq<Event>) | Next(events: seq<Event>)

  /** What `read_in()` gives for each line of standard input, in order. */
  function ReadAll(lines: seq<string>): (r: seq<string>)
    ensures |r| == |lines| && forall k | 0 <= k < |lines| :: r[k] == ReadIn(lines[k])
  {
    seq(|lines|, k requires 0 <= k < |lines| => ReadIn(lines[k]))
  }

  /** The `i`-th read: the stripped line, or `''` once input is exhausted. */
  function ReadLine(input: seq<string>, i: nat): (r: string)
    ensures i >= |input| ==> r == []
  {
    if i < |input| then input[i] else ""
  }

  function TmeEvents(requests: seq<Request>): (r: seq<Event>)
    ensures |r| == |requests| && forall k | 0 <= k < |r| :: r[k] == TmeCall(requests[k])
  {
    seq(|requests|, k requires 0 <= k < |requests| => TmeCall(requests[k]))
  }

  function InventoryEvents(calls: seq<InvCall>): (r: seq<Event>)
    ensures |r| == |calls| && forall k | 0 <= k < |r| :: r[k] == InventoryCall(calls[k])
  {
    seq(|calls|, k requires 0 <= k < |calls| => InventoryCall(calls[k]))
  }

  /** `parse_tme(line.split(" "))` with the TME service at hand. */
  function TmeLookup(tme: TmeService): string -> Lookup {
    line => LookupPart(Split(line, ' '), tme)
  }

  /** `insert_part(part)` with the PartKeepr service at hand. */
  function InventoryInsert(inv: InventoryService): Part -> Insertion {
    part => Reconcile(part, inv)
  }

  /**
   * One pass of the loop over a stripped line: stop with status 0 on the
   * empty line, with status 1 on an unrecognized one or when the lookup or
   * the insertion fails; otherwise read on.
   */
  function LineStep(line: string, lookup: string -> Lookup, insert: Part -> Insertion): (r: Step)
    ensures r.Next? ==> Classify(line) == TmeScan
    ensures Classify(line) == EndOfInput <==> r == Stop(0, [])
    ensures Classify(line) == Unrecognized ==> r == Stop(1, [])
    ensures r.Stop? ==> (r.exitCode == 0 || r.exitCode == 1) && (r.exitCode == 0 <==> line == [])
  {
    match Classify(line)
    case EndOfInput => Stop(0, [])
    case Unrecognized => Stop(1, [])
    case TmeScan =>
      var (found, requests) := lookup(line);
      var looked := TmeEvents(requests);
      if found.Failure? then Stop(1, looked)
      else
        var (inserted, calls) := insert(found.value);
        var done := looked + InventoryEvents(calls);
        if inserted.Failure? then Stop(1, done) else Next(done)
  }

  /** The calls made before `r`'s, in front of them. */
  function After(events: seq<Event>, r: RunResult): RunResult {
    r.(events := events + r.events)
  }

  /**
   * A pass over a label: a failed lookup stops the run with 1 after the TME
   * requests; otherwise the pass records the TME requests, then the PartKeepr
   * calls, and reads on exactly when the insertion succeeds (stopping with 1
   * when it fails).
   */
  lemma LabelStep(line: string, lookup: string -> Lookup, insert: Part -> Insertion)
    requires Classify(line) == TmeScan
    ensures var r := LineStep(line, lookup, insert);
      var (found, requests) := lookup(line);
      && (found.Failure? ==> r == Stop(1, TmeEvents(requests)))
      && (found.Success? ==>
        var (inserted, calls) := insert(found.value);
        && r.events == TmeEvents(requests) + InventoryEvents(calls)
        && (r.Next? <==> inserted.Success?)
        && (r.Stop? ==> r.exitCode == 1))
  {
    var (found, requests) := lookup(line);
    if found.Success? {
      var (inserted, calls) := insert(found.value);
    }
  }

  /** The run from the `i`-th read on. */
  function Session(input: seq<string>, i: nat, lookup: string -> Lookup, insert: Part -> Insertion): RunResult
    decreases |input| - i
  {
    match LineStep(ReadLine(input, i), lookup, insert)
    case Stop(code, events) => RunResult(code, i + 1, events)
    case Next(events) => After(events, Session(input, i + 1, lookup, insert))
  }

  lemma AfterAfter(a: seq<Event>, b: seq<Event>, r: RunResult)
    ensures After(a, After(b, r)) == After(a + b, r)
  {
    assert a + (b + r.events) == (a + b) + r.events;
  }

  /** A pass that stops ends the run there. */
  lemma SessionStop(input: seq<string>, i: nat, lookup: string -> Lookup, insert: Part -> Insertion)
    requires LineStep(ReadLine(input, i), lookup, insert).Stop?
    ensures var step := LineStep(ReadLine(input, i), lookup, insert);
      Session(input, i, lookup, insert) == RunResult(step.exitCode, i + 1, step.events)
  {
  }

  /** A pass that reads on puts its calls in front of the rest of the run. */
  lemma SessionNext(input: seq<string>, i: nat, lookup: string -> Lookup, insert: Part -> Insertion)
    requires LineStep(ReadLine(input, i), lookup, insert).Next?
    ensures var step := LineStep(ReadLine(input, i), lookup, insert);
      Session(input, i, lookup, insert) == After(step.events, Session(input, i + 1, lookup, insert))
  {
  }

  /** The run so far followed by one more pass: what the loop in `Run` keeps. */
  lemma LoopStep(input: seq<string>, i: nat, lookup: string -> Lookup, insert: Part -> Insertion, events: seq<Event>)
    ensures var step := LineStep(ReadLine(input, i), lookup, insert);
      After(events, Session(input, i, lookup, insert)) ==
        match step
        case Stop(code, done) => RunResult(code, i + 1, events + done)
        case Next(done) => After(events + done, Session(input, i + 1, lookup, insert))
  {
    var step := LineStep(ReadLine(input, i), lookup, insert);
    if step.Stop? {
      SessionStop(input, i, lookup, insert);
    } else {
      SessionNext(input, i, lookup, insert);
      AfterAfter(events, step.events, Session(input, i + 1, lookup, insert));
    }
  }

  /** The body of the `while True` loop for one line (parteye.py:236-248). */
  method HandleLine(line: string, tme: TmeService, inv: InventoryService) returns (step: Step)
    ensures step == LineStep(line, TmeLookup(tme), InventoryInsert(inv))
  {
    if !MatchesTme(line) {
      if line == [] {
        return Stop(0, []);
      }
      return Stop(1, []);
    }
    var found, requests := ParseTme(Split(line, ' '), tme);
    var looked := TmeEvents(requests);
    if found.Failure? {
      return Stop(1, looked);
    }
    var inserted, calls := InsertPart(found.value, inv);
    var done := looked + InventoryEvents(calls);
    if inserted.Failure? {
      return Stop(1, done);
    }
    return Next(done);
  }

  /** One pass of the loop over the `i`-th read, with `events` the calls made so far. */
  method Pass(lines: seq<string>, i: nat, tme: TmeService, inv: InventoryService, ghost events: seq<Event>)
    returns (step: Step)
    ensures var rest := After(events, Session(ReadAll(lines), i, TmeLookup(tme), InventoryInsert(inv)));
      match step
      case Stop(code, done) => rest == RunResult(code, i + 1, events + done)
      case Next(done) => rest == After(events + done, Session(ReadAll(lines), i + 1, TmeLookup(tme), InventoryInsert(inv)))
  {
    var line := if i < |lines| then ReadIn(lines[i]) else "";
    assert line == ReadLine(ReadAll(lines), i);
    step := HandleLine(line, tme, inv);
    LoopStep(ReadAll(lines), i, TmeLookup(tme), InventoryInsert(inv), events);
  }

  /** The `while True` loop of parteye.py:235-248, over the lines of standard input. */
  method Run(lines: seq<string>, tme: TmeService, inv: InventoryService) returns (result: RunResult)
    ensures result == Session(ReadAll(lines), 0, TmeLookup(tme), InventoryInsert(inv))
  {
    ghost var input := ReadAll(lines);
    ghost var lookup := TmeLookup(tme);
    ghost var insert := InventoryInsert(inv);
    var i := 0;
    var events: seq<Event> := [];
    while true
      invariant Session(input, 0, lookup, insert) == After(events, Session(input, i, lookup, insert))
      decreases |lines| - i
    {
      var step := Pass(lines, i, tme, inv, events);
      if step.Stop? {
        return RunResult(step.exitCode, i + 1, events + step.events);
      }
      events := events + step.events;
      i := i + 1;
    }
  }

  /**
   * Every run ends with exit status 0 or 1 at the line that stopped it:
   * status 0 exactly when that line is empty (or input has ended), status 1
   * for an unrecognized line or a label whose processing failed.
   */
  lemma {:induction false} SessionStops(input: seq<string>, i: nat, lookup: string -> Lookup, insert: Part -> Insertion)
    requires i <= |input|
    ensures var r := Session(input, i, lookup, insert);
      && (r.exitCode == 0 || r.exitCode == 1)
      && i < r.linesRead <= |input| + 1
      && (r.exitCode == 0 <==> ReadLine(input, r.linesRead - 1) == "")
      && (Classify(ReadLine(input, r.linesRead - 1)) == Unrecognized ==> r.exitCode == 1)
    decreases |input| - i
  {
    var line := ReadLine(input, i);
    var step := LineStep(line, lookup, insert);
    var r := Session(input, i, lookup, insert);
    if step.Stop? {
      SessionStop(input, i, lookup, insert);
      assert r.exitCode == step.exitCode && r.linesRead - 1 == i;
    } else {
      SessionNext(input, i, lookup, insert);
      SessionStops(input, i + 1, lookup, insert);
      var rest := Session(input, i + 1, lookup, insert);
      assert r.exitCode == rest.exitCode && r.linesRead == rest.linesRead;
    }
  }

  /** Every line read before the one that stopped the run was a TME label that was processed. */
  lemma {:induction false} SessionReadsLabels(input: seq<string>, i: nat, j: nat, lookup: string -> Lookup, insert: Part -> Insertion)
    requires i <= j < Session(input, i, lookup, insert).linesRead - 1
    ensures Classify(ReadLine(input, j)) == TmeScan
    ensures LineStep(ReadLine(input, j), lookup, insert).Next?
    decreases j - i
  {
    if LineStep(ReadLine(input, i), lookup, insert).Stop? {
      SessionStop(input, i, lookup, insert);
    } else if j > i {
      SessionNext(input, i, lookup, insert);
      SessionReadsLabels(input, i + 1, j, lookup, insert);
    }
  }

  /** An empty line ends the run with status 0 and nothing more is read; an unrecognized one with status 1. */
  lemma StopLines(input: seq<string>, i: nat, lookup: string -> Lookup, insert: Part -> Insertion)
    ensures ReadLine(input, i) == "" ==> Session(input, i, lookup, insert) == RunResult(0, i + 1, [])
    ensures Classify(ReadLine(input, i)) == Unrecognized ==> Session(input, i, lookup, insert) == RunResult(1, i + 1, [])
  {
  }

  /**
   * A label that is found and inserted, followed by an empty line: the run
   * reads both lines, records the label's TME requests and PartKeepr calls,
   * and ends with status 0.
   */
  lemma LabelThenEmptyLine(scan: string, lookup: string -> Lookup, insert: Part -> Insertion)
    requires Classify(scan) == TmeScan
    requires lookup(scan).0.Success? && insert(lookup(scan).0.value).0.Success?
    ensures var r := Session([scan, ""], 0, lookup, insert);
      && r.exitCode == 0 && r.linesRead == 2
      && r.events == TmeEvents(lookup(scan).1) + InventoryEvents(insert(lookup(scan).0.value).1)
  {
    var input := [scan, ""];
    LabelStep(scan, lookup, insert);
    assert ReadLine(input, 0) == scan;
    SessionNext(input, 0, lookup, insert);
    assert ReadLine(input, 1) == "";
    StopLines(input, 1, lookup, insert);
  }

  /** The PartKeepr calls among the events, in order. */
  function InventoryCalls(events: seq<Event>): (calls: seq<InvCall>)
    ensures |calls| <= |events|
    ensures forall c :: c in calls <==> InventoryCall(c) in events
  {
    if events == [] then []
    else
      var rest := InventoryCalls(events[1..]);
      assert forall e | e in events :: e == events[0] || e in events[1..];
      (if events[0].InventoryCall? then [events[0].call] else []) + rest
  }

  /** How many of the calls change the inventory. */
  function InventoryWrites(events: seq<Event>): nat {
    Writes(InventoryCalls(events))
  }

  lemma {:induction false} InventoryCallsAppend(a: seq<Event>, b: seq<Event>)
    ensures InventoryCalls(a + b) == InventoryCalls(a) + InventoryCalls(b)
  {
    if a != [] {
      InventoryCallsAppend(a[1..], b);
      assert (a + b)[1..] == a[1..] + b;
    } else {
      assert a + b == b;
    }
  }

  lemma InventoryWritesAppend(a: seq<Event>, b: seq<Event>)
    ensures InventoryWrites(a + b) == InventoryWrites(a) + InventoryWrites(b)
  {
    InventoryCallsAppend(a, b);
    WritesAppend(InventoryCalls(a), InventoryCalls(b));
  }

  /** TME requests make no PartKeepr call. */
  lemma {:induction false} TmeEventsCallNothing(requests: seq<Request>)
    ensures InventoryCalls(TmeEvents(requests)) == []
  {
    if requests != [] {
      TmeEventsCallNothing(requests[1..]);
      assert TmeEvents(requests)[1..] == TmeEvents(requests[1..]);
    }
  }

  /** The PartKeepr calls of recorded inventory events are those calls. */
  lemma {:induction false} InventoryEventsCalls(calls: seq<InvCall>)
    ensures InventoryCalls(InventoryEvents(calls)) == calls
  {
    if calls != [] {
      InventoryEventsCalls(calls[1..]);
      assert InventoryEvents(calls)[1..] == InventoryEvents(calls[1..]);
      assert calls == [calls[0]] + calls[1..];
    }
  }

  /** A pass that reads on changed the inventory exactly once; a pass that stops changed nothing. */
  lemma StepWrites(line: string, lookup: string -> Lookup, inv: InventoryService)
    ensures var step := LineStep(line, lookup, InventoryInsert(inv));
      InventoryWrites(step.events) == if step.Next? then 1 else 0
  {
    if Classify(line) == TmeScan {
      var (found, requests) := lookup(line);
      TmeEventsCallNothing(requests);
      if found.Success? {
        var (inserted, calls) := Reconcile(found.value, inv);
        ExactlyOneWrite(found.value, inv);
        InventoryEventsCalls(calls);
        InventoryWritesAppend(TmeEvents(requests), InventoryEvents(calls));
      }
    }
  }

  /**
   * Each label the run got through added to the inventory exactly once, and
   * the line that stopped the run changed nothing: the number of inventory
   * writes is the number of lines before the last one read.
   */
  lemma {:induction false} SessionWrites(input: seq<string>, i: nat, lookup: string -> Lookup, inv: InventoryService)
    requires i <= |input|
    ensures var r := Session(input, i, lookup, InventoryInsert(inv));
      InventoryWrites(r.events) == r.linesRead - 1 - i
    decreases |input| - i
  {
    var insert := InventoryInsert(inv);
    var step := LineStep(ReadLine(input, i), lookup, insert);
    StepWrites(ReadLine(input, i), lookup, inv);
    if step.Next? {
      SessionWrites(input, i + 1, lookup, inv);
      SessionStops(input, i + 1, lookup, insert);
      InventoryWritesAppend(step.events, Session(input, i + 1, lookup, insert).events);
    }
  }
}
