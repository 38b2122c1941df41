/**
 * The API side of the bridge: admission of chat-completion requests into a
 * single request queue, the worker that serves them one at a time through
 * the driver, and the two ways a response queue is read back (relayed as a
 * stream, or aggregated into one completion). The driver's drain loop, which
 * turns what its route handler puts on a private queue into yielded frames,
 * is here too.
 *
 * A queue element is the JSON object of a `data: <json>` line; the JSON
 * text encoding itself is not modelled. The response queue's end-of-stream
 * `None` is `Option.None`.
 */
module Admission {
  import opened Wrappers
  import opened JsonValue
  import PatchDecoder
  import PromptFormat
  import Strings

  datatype Request = Request(messages: seq<PromptFormat.Message>, model: string, stream: bool)

  // ---------------------------------------------------------------------
  // The driver's drain loop
  // ---------------------------------------------------------------------

  /** What the driver's route handler puts on its private queue. */
  datatype TapItem = TapFrame(frame: Json) | TapError(message: string) | TapEnd

  /** The frames and the optional failure of one intercepted upstream response, then the end marker. */
  function RouteOutput(frames: seq<Json>, failure: Option<string>): seq<TapItem> {
    seq(|frames|, i requires 0 <= i < |frames| => TapFrame(frames[i]))
    + (if failure.Some? then [TapError(failure.value)] else [])
    + [TapEnd]
  }

  /** The frame the drain loop yields for an error item: `{"error": message}`. */
  function TapErrorFrame(message: string): Json {
    JObj([Member("error", JStr(message))])
  }

  /** What the drain loop yields: every frame until the end marker; an error is yielded and ends it. */
  function DrainSpec(tap: seq<TapItem>): seq<Json> {
    if |tap| == 0 then []
    else
      match tap[0]
      case TapEnd => []
      case TapError(m) => [TapErrorFrame(m)]
      case TapFrame(f) => [f] + DrainSpec(tap[1..])
  }

  method Drain(tap: seq<TapItem>) returns (yielded: seq<Json>)
    ensures yielded == DrainSpec(tap)
  {
    yielded := [];
    var i := 0;
    var done := false;
    while i < |tap| && !done
      invariant 0 <= i <= |tap|
      invariant done ==> yielded == DrainSpec(tap)
      invariant !done ==> DrainSpec(tap) == yielded + DrainSpec(tap[i..])
      decreases |tap| - i, if done then 0 else 1
    {
      match tap[i]
      case TapEnd =>
        done := true;
      case TapError(m) =>
        yielded := yielded + [TapErrorFrame(m)];
        done := true;
      case TapFrame(f) =>
        assert tap[i..][1..] == tap[i + 1..];
        yielded := yielded + [f];
        i := i + 1;
    }
    if !done {
      assert tap[i..] == [];
    }
  }

  /** The drain loop yields the handler's frames in order and then, after a failure, one error frame. */
  lemma {:induction false} DrainRoute(frames: seq<Json>, failure: Option<string>)
    ensures DrainSpec(RouteOutput(frames, failure))
         == frames + (if failure.Some? then [TapErrorFrame(failure.value)] else [])
    decreases |frames|
  {
    var tap := RouteOutput(frames, failure);
    if |frames| > 0 {
      assert tap[0] == TapFrame(frames[0]);
      assert tap[1..] == RouteOutput(frames[1..], failure);
      DrainRoute(frames[1..], failure);
    } else {
      assert tap == (if failure.Some? then [TapError(failure.value)] else []) + [TapEnd];
    }
  }

  // ---------------------------------------------------------------------
  // The worker
  // ---------------------------------------------------------------------

  /** What the driver does for one request: the frames it yields, then possibly a failure. */
  datatype DriverRun = DriverRun(yielded: seq<Json>, failure: Option<string>)

  /** The worker's error frame for a failed generation. */
  function ErrorFrame(message: string): Json {
    JObj([Member("error", JObj([
      Member("message", JStr(message)),
      Member("type", JStr("internal_error")),
      Member("param", JNull),
      Member("code", JNull)]))])
  }

  /** What the worker puts on one response queue. */
  function Somes(xs: seq<Json>): seq<Option<Json>> {
    seq(|xs|, i requires 0 <= i < |xs| => Some(xs[i]))
  }

  function ItemOutput(run: DriverRun): seq<Option<Json>> {
    Somes(run.yielded)
    + (if run.failure.Some? then [Some(ErrorFrame(run.failure.value))] else [])
    + [None]
  }

  /**
   * Every served request gets exactly one `None`, as its last element,
   * after the driver's frames in order and, when the driver failed, one
   * error frame.
   */
  lemma ItemTerminated(run: DriverRun)
    ensures var out := ItemOutput(run);
            var n := |run.yielded|;
            && |out| == n + (if run.failure.Some? then 2 else 1)
            && out[|out| - 1] == None
            && (forall i :: 0 <= i < |out| - 1 ==> out[i].Some?)
            && (forall i :: 0 <= i < n ==> out[i] == Some(run.yielded[i]))
            && (run.failure.Some? ==> out[n] == Some(ErrorFrame(run.failure.value)))
  {
  }

  datatype Pending = Pending(ticket: nat, request: Request)

  /** The tickets of the queue, in queue order. */
  predicate Increasing(pending: seq<Pending>) {
    forall i, j :: 0 <= i < j < |pending| ==> pending[i].ticket < pending[j].ticket
  }

  /** The response queues after serving these requests in order. */
  function Served(responses: seq<seq<Option<Json>>>, pending: seq<Pending>, drive: Request -> DriverRun): (r: seq<seq<Option<Json>>>)
    requires forall i :: 0 <= i < |pending| ==> pending[i].ticket < |responses|
    ensures |r| == |responses|
    decreases |pending|
  {
    if |pending| == 0 then responses
    else
      var t := pending[0].ticket;
      Served(responses[t := responses[t] + ItemOutput(drive(pending[0].request))], pending[1..], drive)
  }

  /** The ticket of every put, in the order the puts happen. */
  function PutLog(pending: seq<Pending>, drive: Request -> DriverRun): seq<nat>
    decreases |pending|
  {
    if |pending| == 0 then []
    else
      seq(|ItemOutput(drive(pending[0].request))|, _ => pending[0].ticket) + PutLog(pending[1..], drive)
  }

  class Api {
    var running: bool
    var pending: seq<Pending>
    var responses: seq<seq<Option<Json>>>
    ghost var log: seq<nat>

    predicate Valid()
      reads this
    {
      Increasing(pending) && forall i :: 0 <= i < |pending| ==> pending[i].ticket < |responses|
    }

    constructor(running: bool)
      ensures Valid() && this.running == running && pending == [] && responses == [] && log == []
    {
      this.running := running;
      pending := [];
      responses := [];
      log := [];
    }

    /** A request when the driver is not running is refused (503) and nothing is queued. */
    method Submit(request: Request) returns (r: Result<nat, int>)
      requires Valid()
      modifies this
      ensures Valid()
      ensures !old(running) ==> r == Failure(503) && pending == old(pending) && responses == old(responses)
      ensures old(running) ==>
                && r == Success(|old(responses)|)
                && pending == old(pending) + [Pending(|old(responses)|, request)]
                && responses == old(responses) + [[]]
      ensures running == old(running) && log == old(log)
    {
      if !running {
        return Failure(503);
      }
      var t := |responses|;
      responses := responses + [[]];
      pending := pending + [Pending(t, request)];
      r := Success(t);
    }

    method Put(t: nat, item: Option<Json>)
      requires t < |responses|
      modifies this
      ensures responses == old(responses)[t := old(responses)[t] + [item]]
      ensures log == old(log) + [t]
      ensures pending == old(pending) && running == old(running)
    {
      responses := responses[t := responses[t] + [item]];
      log := log + [t];
    }

    /**
     * The worker drains the request queue: every request is served in
     * dequeue order, each to completion before the next, and a failure of
     * one request does not stop the others.
     */
    method Worker(drive: Request -> DriverRun)
      requires Valid()
      modifies this
      ensures Valid() && pending == []
      ensures responses == Served(old(responses), old(pending), drive)
      ensures log == old(log) + PutLog(old(pending), drive)
      ensures running == old(running)
    {
      while |pending| > 0
        invariant Valid() && |responses| == |old(responses)| && running == old(running)
        invariant Served(old(responses), old(pending), drive) == Served(responses, pending, drive)
        invariant old(log) + PutLog(old(pending), drive) == log + PutLog(pending, drive)
        decreases |pending|
      {
        var item := pending[0];
        pending := pending[1..];
        ServeOne(item.ticket, drive(item.request));
      }
    }

    /** One request: the driver's frames, an error frame if it failed, then always `None`. */
    method ServeOne(t: nat, run: DriverRun)
      requires t < |responses|
      modifies this
      ensures responses == old(responses)[t := old(responses)[t] + ItemOutput(run)]
      ensures log == old(log) + seq(|ItemOutput(run)|, _ => t)
      ensures pending == old(pending) && running == old(running)
    {
      var i := 0;
      ghost var base := old(responses)[t];
      assert Somes(run.yielded[..0]) == [];
      assert base + Somes(run.yielded[..0]) == base;
      assert old(responses)[t := base] == old(responses);
      while i < |run.yielded|
        invariant 0 <= i <= |run.yielded| && |responses| == |old(responses)|
        invariant responses == old(responses)[t := base + Somes(run.yielded[..i])]
        invariant log == old(log) + seq(i, _ => t)
        invariant pending == old(pending) && running == old(running)
      {
        ghost var before := responses;
        Put(t, Some(run.yielded[i]));
        assert responses == old(responses)[t := base + Somes(run.yielded[..i]) + [Some(run.yielded[i])]] by {
          assert before[t] == base + Somes(run.yielded[..i]);
        }
        assert run.yielded[..i + 1] == run.yielded[..i] + [run.yielded[i]];
        assert Somes(run.yielded[..i + 1]) == Somes(run.yielded[..i]) + [Some(run.yielded[i])];
        assert base + Somes(run.yielded[..i + 1]) == base + Somes(run.yielded[..i]) + [Some(run.yielded[i])];
        assert seq(i + 1, _ => t) == seq(i, _ => t) + [t];
        i := i + 1;
      }
      assert run.yielded[..i] == run.yielded;
      ghost var mid := base + Somes(run.yielded);
      if run.failure.Some? {
        Put(t, Some(ErrorFrame(run.failure.value)));
        mid := mid + [Some(ErrorFrame(run.failure.value))];
      }
      Put(t, None);
      assert base + ItemOutput(run) == mid + [None];
      ghost var n := |ItemOutput(run)|;
      assert seq(n, _ => t) == seq(|run.yielded|, _ => t) + (if run.failure.Some? then [t] else []) + [t];
    }
  }

  predicate NonDecreasing(s: seq<nat>) {
    forall i, j :: 0 <= i < j < |s| ==> s[i] <= s[j]
  }

  /** With increasing tickets, the puts of one request all come before those of the next. */
  lemma {:induction false} PutLogOrdered(pending: seq<Pending>, drive: Request -> DriverRun)
    requires Increasing(pending)
    ensures NonDecreasing(PutLog(pending, drive))
    ensures forall i :: 0 <= i < |PutLog(pending, drive)| ==>
              exists k :: 0 <= k < |pending| && PutLog(pending, drive)[i] == pending[k].ticket
    decreases |pending|
  {
    if |pending| > 0 {
      var head := seq(|ItemOutput(drive(pending[0].request))|, _ => pending[0].ticket);
      var rest := PutLog(pending[1..], drive);
      assert Increasing(pending[1..]) by {
        forall i, j | 0 <= i < j < |pending[1..]|
          ensures pending[1..][i].ticket < pending[1..][j].ticket
        {
          assert pending[1..][i] == pending[i + 1] && pending[1..][j] == pending[j + 1];
        }
      }
      PutLogOrdered(pending[1..], drive);
      var log := head + rest;
      assert PutLog(pending, drive) == log;
      forall i | 0 <= i < |rest|
        ensures pending[0].ticket < rest[i]
      {
        var k :| 0 <= k < |pending[1..]| && rest[i] == pending[1..][k].ticket;
        assert pending[1..][k] == pending[k + 1];
      }
      forall i | 0 <= i < |log|
        ensures exists k :: 0 <= k < |pending| && log[i] == pending[k].ticket
      {
        if i < |head| {
          assert log[i] == pending[0].ticket;
        } else {
          assert log[i] == rest[i - |head|];
          var k :| 0 <= k < |pending[1..]| && rest[i - |head|] == pending[1..][k].ticket;
          assert pending[1..][k] == pending[k + 1];
        }
      }
      forall i, j | 0 <= i < j < |log|
        ensures log[i] <= log[j]
      {
        if j < |head| {
          assert log[i] == pending[0].ticket && log[j] == pending[0].ticket;
        } else if i < |head| {
          assert log[i] == pending[0].ticket && log[j] == rest[j - |head|];
          assert pending[0].ticket < rest[j - |head|];
        } else {
          assert log[i] == rest[i - |head|] && log[j] == rest[j - |head|];
          assert 0 <= i - |head| < j - |head| < |rest|;
          assert rest[i - |head|] <= rest[j - |head|];
        }
      }
    }
  }

  /** Each queued request's response queue receives exactly that request's output. */
  lemma {:induction false} ServedQueue(responses: seq<seq<Option<Json>>>, pending: seq<Pending>, drive: Request -> DriverRun, k: nat)
    requires Increasing(pending) && forall i :: 0 <= i < |pending| ==> pending[i].ticket < |responses|
    requires k < |pending|
    ensures var t := pending[k].ticket;
            Served(responses, pending, drive)[t] == responses[t] + ItemOutput(drive(pending[k].request))
    decreases |pending|
  {
    var t0 := pending[0].ticket;
    var r1 := responses[t0 := responses[t0] + ItemOutput(drive(pending[0].request))];
    assert Increasing(pending[1..]) by {
      forall i, j | 0 <= i < j < |pending[1..]|
        ensures pending[1..][i].ticket < pending[1..][j].ticket
      {
        assert pending[1..][i] == pending[i + 1] && pending[1..][j] == pending[j + 1];
      }
    }
    if k == 0 {
      ServedUntouched(r1, pending[1..], drive, t0);
    } else {
      ServedQueue(r1, pending[1..], drive, k - 1);
      assert pending[1..][k - 1] == pending[k];
    }
  }

  /** A queue no pending request names is left alone. */
  lemma {:induction false} ServedUntouched(responses: seq<seq<Option<Json>>>, pending: seq<Pending>, drive: Request -> DriverRun, t: nat)
    requires forall i :: 0 <= i < |pending| ==> t < pending[i].ticket < |responses|
    requires t < |responses|
    ensures Served(responses, pending, drive)[t] == responses[t]
    decreases |pending|
  {
    if |pending| > 0 {
      var t0 := pending[0].ticket;
      var r1 := responses[t0 := responses[t0] + ItemOutput(drive(pending[0].request))];
      ServedUntouched(r1, pending[1..], drive, t);
    }
  }

  // ---------------------------------------------------------------------
  // Reading a response queue back
  // ---------------------------------------------------------------------

  /** A line of the event stream sent to a streaming client. */
  datatype SseLine = DataLine(payload: Json) | DoneLine

  /** The stream relays every element until `None`, which ends it with `data: [DONE]`. */
  function StreamSpec(queue: seq<Option<Json>>): seq<SseLine> {
    if |queue| == 0 then []
    else if queue[0].None? then [DoneLine]
    else [DataLine(queue[0].value)] + StreamSpec(queue[1..])
  }

  method StreamGenerator(queue: seq<Option<Json>>) returns (out: seq<SseLine>)
    ensures out == StreamSpec(queue)
  {
    out := [];
    var i := 0;
    while i < |queue|
      invariant 0 <= i <= |queue|
      invariant StreamSpec(queue) == out + StreamSpec(queue[i..])
      decreases |queue| - i
    {
      var chunk := queue[i];
      if chunk.None? {
        out := out + [DoneLine];
        return;
      }
      assert queue[i..][1..] == queue[i + 1..];
      out := out + [DataLine(chunk.value)];
      i := i + 1;
    }
    assert queue[i..] == [];
  }

  /** A streamed request relays the item's frames in order and sends `[DONE]` exactly once, last. */
  lemma StreamOfItem(run: DriverRun, later: seq<Option<Json>>)
    ensures var out := StreamSpec(ItemOutput(run) + later);
            var frames := run.yielded + (if run.failure.Some? then [ErrorFrame(run.failure.value)] else []);
            && |out| == |frames| + 1
            && out[|out| - 1] == DoneLine
            && forall i :: 0 <= i < |frames| ==> out[i] == DataLine(frames[i])
  {
    var frames := run.yielded + (if run.failure.Some? then [ErrorFrame(run.failure.value)] else []);
    var q := ItemOutput(run) + later;
    assert forall i :: 0 <= i < |frames| ==> q[i] == Some(frames[i]);
    assert q[|frames|] == None;
    StreamPrefix(q, frames);
  }

  lemma {:induction false} StreamPrefix(q: seq<Option<Json>>, frames: seq<Json>)
    requires |frames| < |q| && q[|frames|] == None
    requires forall i :: 0 <= i < |frames| ==> q[i] == Some(frames[i])
    ensures StreamSpec(q) == seq(|frames|, i requires 0 <= i < |frames| => DataLine(frames[i])) + [DoneLine]
    decreases |frames|
  {
    if |frames| > 0 {
      StreamPrefix(q[1..], frames[1..]);
      assert seq(|frames|, i requires 0 <= i < |frames| => DataLine(frames[i]))
          == [DataLine(frames[0])] + seq(|frames[1..]|, i requires 0 <= i < |frames[1..]| => DataLine(frames[1..][i]));
    }
  }

  /** The non-streaming accumulator: the text so far and the last finish reason read. */
  datatype Aggregation = Aggregation(content: string, finish: Json)

  /** Python's `len(x)`, when `x` has one. */
  function PyLen(x: Json): Option<nat> {
    match x
    case JStr(s) => Some(|s|)
    case JArr(items) => Some(|items|)
    case JObj(members) => Some(|members|)
    case _ => None
  }

  /**
   * One frame: when it has a non-empty `choices` list whose first element is
   * a dict, that element's `delta.content` is appended and its
   * `finish_reason` read. Anything that would raise leaves the frame out
   * from the point where it raises.
   */
  function AggStep(g: Aggregation, data: Json): Aggregation {
    match PyIn("choices", data)
    case None => g
    case Some(has) =>
      if !has || !data.JObj? then g
      else
        var choices := Get(data.members, "choices");
        if PyLen(choices).None? || PyLen(choices).value == 0 || !choices.JArr? || !choices.items[0].JObj? then g
        else
          var first := choices.items[0].members;
          var delta := Lookup(first, "delta").GetOr(JObj([]));
          match PyIn("content", delta)
          case None => g
          case Some(hasContent) =>
            if !hasContent then g.(finish := Get(first, "finish_reason"))
            else if !delta.JObj? || !Get(delta.members, "content").JStr? then g
            else Aggregation(g.content + Get(delta.members, "content").s, Get(first, "finish_reason"))
  }

  /** The queue read until `None`. */
  function AggFold(g: Aggregation, queue: seq<Option<Json>>): Aggregation
    decreases |queue|
  {
    if |queue| == 0 || queue[0].None? then g else AggFold(AggStep(g, queue[0].value), queue[1..])
  }

  /** The completion's content and its finish reason, which is "stop" when none was truthy. */
  datatype Completion = Completion(content: string, finishReason: Json)

  function CompletionOf(g: Aggregation): Completion {
    Completion(g.content, if Truthy(g.finish) then g.finish else JStr("stop"))
  }

  method Aggregate(queue: seq<Option<Json>>) returns (c: Completion)
    ensures c == CompletionOf(AggFold(Aggregation("", JNull), queue))
  {
    var content := "";
    var finish := JNull;
    var i := 0;
    while i < |queue| && queue[i].Some?
      invariant 0 <= i <= |queue|
      invariant AggFold(Aggregation("", JNull), queue) == AggFold(Aggregation(content, finish), queue[i..])
      decreases |queue| - i
    {
      assert queue[i..][1..] == queue[i + 1..];
      var g := AggStep(Aggregation(content, finish), queue[i].value);
      content, finish := g.content, g.finish;
      i := i + 1;
    }
    c := Completion(content, if Truthy(finish) then finish else JStr("stop"));
  }

  /** The worker's error frame has no `choices` and contributes nothing. */
  lemma ErrorFrameIgnored(g: Aggregation, message: string)
    ensures AggStep(g, ErrorFrame(message)) == g
  {
    var members := ErrorFrame(message).members;
    assert !HasKey(members, "choices") by {
      assert members[0].key == "error";
    }
  }

  /** A decoder frame appends its text and sets the finish reason to "stop" or None. */
  lemma DecoderFrameAggregated(g: Aggregation, f: PatchDecoder.Frame, created: int)
    ensures AggStep(g, PatchDecoder.FrameJson(f, created))
         == Aggregation(g.content + f.content, if f.finish then JStr("stop") else JNull)
  {
    var choice := PatchDecoder.ChoiceMembers(f);
    FrameChoices(f, created);
    ChoiceLookups(f);
    ChoiceStep(g, PatchDecoder.FrameJson(f, created), choice, PatchDecoder.DeltaJson(f));
    if f.content == "" {
      assert g.content + f.content == g.content;
    } else {
      DeltaContent(f);
    }
  }

  /** A frame has one choice. */
  lemma FrameChoices(f: PatchDecoder.Frame, created: int)
    ensures Lookup(PatchDecoder.FrameJson(f, created).members, "choices")
         == Some(JArr([JObj(PatchDecoder.ChoiceMembers(f))]))
  {
    var members := PatchDecoder.FrameJson(f, created).members;
    assert members == members[..4] + [members[4]];
    assert !HasKey(members[..4], "choices") by {
      forall i | 0 <= i < 4
        ensures members[i].key != "choices"
      {
        assert members[i].key[1] != 'h';
      }
    }
    LookupLast(members[..4], "choices", JArr([JObj(PatchDecoder.ChoiceMembers(f))]));
  }

  lemma ChoiceLookups(f: PatchDecoder.Frame)
    ensures var choice := PatchDecoder.ChoiceMembers(f);
            && Lookup(choice, "delta") == Some(PatchDecoder.DeltaJson(f))
            && Lookup(choice, "finish_reason") == Some(if f.finish then JStr("stop") else JNull)
  {
    var choice := PatchDecoder.ChoiceMembers(f);
    assert choice[0].key[0] == 'i' && choice[1].key[0] == 'd';
    assert choice[1..] == [choice[1]] + choice[2..];
    assert choice == choice[..2] + [choice[2]];
    LookupLast(choice[..2], "finish_reason", choice[2].value);
  }

  lemma DeltaContent(f: PatchDecoder.Frame)
    requires f.content != ""
    ensures HasKey(PatchDecoder.DeltaJson(f).members, "content")
    ensures Get(PatchDecoder.DeltaJson(f).members, "content") == JStr(f.content)
  {
    assert PatchDecoder.DeltaJson(f).members[0].key == "content";
  }

  /** One frame whose only choice is a dict with a dict `delta`. */
  lemma ChoiceStep(g: Aggregation, data: Json, choice: seq<Member>, delta: Json)
    requires data.JObj? && Lookup(data.members, "choices") == Some(JArr([JObj(choice)]))
    requires Lookup(choice, "delta") == Some(delta) && delta.JObj?
    ensures AggStep(g, data)
         == if !HasKey(delta.members, "content") then g.(finish := Get(choice, "finish_reason"))
            else if Get(delta.members, "content").JStr? then Aggregation(g.content + Get(delta.members, "content").s, Get(choice, "finish_reason"))
            else g
  {
  }

  /** The JSON objects of decoder frames, as the driver yields them. */
  function FramesJson(frames: seq<PatchDecoder.Frame>, created: int): seq<Json> {
    seq(|frames|, i requires 0 <= i < |frames| => PatchDecoder.FrameJson(frames[i], created))
  }

  lemma AggFoldCons(g: Aggregation, q: seq<Option<Json>>)
    requires |q| > 0 && q[0].Some?
    ensures AggFold(g, q) == AggFold(AggStep(g, q[0].value), q[1..])
  {
  }

  lemma ItemOutputCons(ys: seq<Json>, failure: Option<string>)
    requires |ys| > 0
    ensures ItemOutput(DriverRun(ys, failure))[0] == Some(ys[0])
    ensures ItemOutput(DriverRun(ys, failure))[1..] == ItemOutput(DriverRun(ys[1..], failure))
  {
    assert Somes(ys)[1..] == Somes(ys[1..]);
  }

  /** Without frames only the error frame, if any, precedes `None`, and it changes nothing. */
  lemma AggNoFrames(g: Aggregation, created: int, failure: Option<string>)
    ensures AggFold(g, ItemOutput(DriverRun(FramesJson([], created), failure))) == g
  {
    var q := ItemOutput(DriverRun(FramesJson([], created), failure));
    if failure.Some? {
      assert q == [Some(ErrorFrame(failure.value)), None];
      ErrorFrameIgnored(g, failure.value);
      assert AggFold(g, q) == AggFold(AggStep(g, ErrorFrame(failure.value)), q[1..]);
    } else {
      assert q == [None];
    }
  }

  /** The first decoder frame is aggregated, then the rest of the item. */
  lemma AggFirstFrame(g: Aggregation, frames: seq<PatchDecoder.Frame>, created: int, failure: Option<string>)
    requires |frames| > 0
    ensures AggFold(g, ItemOutput(DriverRun(FramesJson(frames, created), failure)))
         == AggFold(Aggregation(g.content + frames[0].content, if frames[0].finish then JStr("stop") else JNull),
                    ItemOutput(DriverRun(FramesJson(frames[1..], created), failure)))
  {
    var ys := FramesJson(frames, created);
    var q := ItemOutput(DriverRun(ys, failure));
    DecoderFrameAggregated(g, frames[0], created);
    ItemOutputCons(ys, failure);
    assert ys[1..] == FramesJson(frames[1..], created);
    AggFoldCons(g, q);
  }

  /** A missing or "stop" finish reason completes as "stop". */
  lemma StopStays(g: Aggregation)
    requires g.finish == JNull || g.finish == JStr("stop")
    ensures CompletionOf(g).finishReason == JStr("stop")
  {
  }

  /**
   * A non-streaming request whose driver yields decoder frames gets the
   * concatenated text of those frames, and "stop" as finish reason: a
   * failure adds an error frame that changes nothing.
   */
  lemma {:induction false} NonStreamingOfFrames(g: Aggregation, frames: seq<PatchDecoder.Frame>, created: int, failure: Option<string>)
    requires g.finish == JNull || g.finish == JStr("stop")
    ensures var r := AggFold(g, ItemOutput(DriverRun(FramesJson(frames, created), failure)));
            r.content == g.content + PatchDecoder.Contents(frames)
            && CompletionOf(r).finishReason == JStr("stop")
    decreases |frames|
  {
    if |frames| == 0 {
      AggNoFrames(g, created, failure);
      StopStays(g);
    } else {
      var g1 := Aggregation(g.content + frames[0].content, if frames[0].finish then JStr("stop") else JNull);
      var r1 := AggFold(g1, ItemOutput(DriverRun(FramesJson(frames[1..], created), failure)));
      AggFirstFrame(g, frames, created, failure);
      assert AggFold(g, ItemOutput(DriverRun(FramesJson(frames, created), failure))) == r1;
      NonStreamingOfFrames(g1, frames[1..], created, failure);
      assert r1.content == g1.content + PatchDecoder.Contents(frames[1..]);
      PatchDecoder.ContentsCons(frames);
      Strings.ConcatAssoc(g.content, frames[0].content, PatchDecoder.Contents(frames[1..]));
    }
  }
}
