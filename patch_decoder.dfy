/**
 * The streaming patch decoder of the DeepSeek driver: it reads the upstream
 * event stream chunk by chunk, keeps a registry of fragment types and a
 * "thinking" flag across chunks, and turns each `data: <json>` line into at
 * most one OpenAI-style delta frame.
 *
 * The specification is a set of folds over lines, operations and fragment
 * descriptors. Besides the frame text, the folds record how every piece of
 * text arose (an `Emit` event), so that safety properties such as "search
 * text never reaches the client" can be stated about the output.
 */
module PatchDecoder {
  import opened Wrappers
  import opened Strings
  import opened JsonValue

  /** The decoder's state: the registry of fragment types, by index, and the thinking flag. */
  datatype State = State(types: seq<Json>, thinking: bool)

  /** Where a piece of output text came from. */
  datatype Origin =
    | Bare(whileThinking: bool)   // a bare string `v` on a line
    | Initial(ftype: Json)        // the `content` of a newly appended fragment
    | Indexed(ftype: Json)        // a `.../<i>/content` update of a registered fragment

  datatype Emit = OpenThink | CloseThink | Text(text: string, origin: Origin)

  /** One delta frame: its text (the `delta.content`, absent when empty) and whether it finishes. */
  datatype Frame = Frame(content: string, finish: bool)

  const THINK := JStr("THINK")
  const RESPONSE := JStr("RESPONSE")
  const SEARCH := JStr("SEARCH")

  function RenderOne(e: Emit): string {
    match e
    case OpenThink => "<think>"
    case CloseThink => "</think>"
    case Text(t, _) => t
  }

  /** The text a sequence of events adds to a frame. */
  function Render(es: seq<Emit>): string {
    if |es| == 0 then "" else Render(es[..|es| - 1]) + RenderOne(es[|es| - 1])
  }

  lemma RenderSnoc(es: seq<Emit>, e: Emit)
    ensures Render(es + [e]) == Render(es) + RenderOne(e)
  {
    assert (es + [e])[..|es|] == es;
  }

  lemma {:induction false} RenderConcat(a: seq<Emit>, b: seq<Emit>)
    ensures Render(a + b) == Render(a) + Render(b)
    decreases |b|
  {
    if |b| > 0 {
      var b' := b[..|b| - 1];
      assert a + b == (a + b') + [b[|b| - 1]];
      assert b == b' + [b[|b| - 1]];
      RenderSnoc(a + b', b[|b| - 1]);
      RenderSnoc(b', b[|b| - 1]);
      RenderConcat(a, b');
    } else {
      assert a + b == a;
    }
  }

  // ---------------------------------------------------------------------
  // Fragment descriptors of an APPEND operation
  // ---------------------------------------------------------------------

  /** Progress through the descriptors of one APPEND operation. */
  datatype Progress = Progress(st: State, events: seq<Emit>, aborted: bool)

  function EmitIf(events: seq<Emit>, c: bool, e: Emit): seq<Emit> {
    if c then events + [e] else events
  }

  /** Handling of one descriptor: register its type, open or close thinking, add its initial text. */
  function FragStep(g: Progress, frag: Json, send: bool): Progress {
    if !frag.JObj? then g
    else
      var ty := Get(frag.members, "type");
      InitialContent(Register(g, ty, send), frag.members, ty, send)
  }

  /** The type is registered; a THINK descriptor opens thinking, a RESPONSE one closes it. */
  function Register(g: Progress, ty: Json, send: bool): Progress {
    var types := g.st.types + [ty];
    var (ev1, th1) := if ty == THINK then (EmitIf(g.events, send, OpenThink), true)
                      else (g.events, g.st.thinking);
    var (ev2, th2) := if ty == RESPONSE && th1 then (EmitIf(ev1, send, CloseThink), false)
                      else (ev1, th1);
    Progress(State(types, th2), ev2, g.aborted)
  }

  /** The descriptor's own `content`: kept, suppressed, or an error when it is not a string. */
  function InitialContent(g: Progress, members: seq<Member>, ty: Json, send: bool): Progress {
    match Lookup(members, "content")
    case None => g
    case Some(c) =>
      if ty == SEARCH || (ty == THINK && !send) then g
      else if c.JStr? then g.(events := g.events + [Text(c.s, Initial(ty))])
      else g.(aborted := true)
  }

  function FragFold(g: Progress, frags: seq<Json>, send: bool): Progress
    decreases |frags|
  {
    if |frags| == 0 || g.aborted then g
    else FragFold(FragStep(g, frags[0], send), frags[1..], send)
  }

  /** The type tags an APPEND of these descriptors registers: one per dict, in order. */
  function TypesOf(frags: seq<Json>): seq<Json> {
    if |frags| == 0 then []
    else (if frags[0].JObj? then [Get(frags[0].members, "type")] else []) + TypesOf(frags[1..])
  }

  // ---------------------------------------------------------------------
  // Operations of one line
  // ---------------------------------------------------------------------

  /** Progress through the operations of one line. */
  datatype Acc = Acc(st: State, events: seq<Emit>, finish: bool, stop: bool, aborted: bool)

  /** Ending a think block: `</think>` is added only when one is open and thinking is sent. */
  function CloseThinking(a: Acc, send: bool): Acc {
    if a.st.thinking then a.(st := a.st.(thinking := false), events := EmitIf(a.events, send, CloseThink))
    else a
  }

  predicate IsContentPath(p: string) {
    (StartsWith(p, "response/fragments/") || StartsWith(p, "fragments/")) && EndsWith(p, "/content")
  }

  /** Python's `xs[i]` bounds for a list of length `n`, with negative indices counted from the end. */
  function ResolveIndex(i: int, n: nat): (r: Option<nat>)
    ensures r.Some? <==> -(n as int) <= i < n
    ensures r.Some? ==> r.value < n && (if i >= 0 then r.value == i else r.value == n + i)
  {
    if 0 <= i < n then Some(i) else if -(n as int) <= i < 0 then Some(n + i) else None
  }

  /** The fragment index named by a content path, when it is a Python integer. */
  function PathIndex(p: string): Option<int> {
    var parts := Split(p, '/');
    var k := if parts[0] == "response" then 2 else 1;
    if k < |parts| then ParseInt(parts[k]) else None
  }

  /** A `.../<i>/content` update: text of the registered fragment `i`, unless it is search or unsent thinking. */
  function IndexedEvents(types: seq<Json>, events: seq<Emit>, p: string, v: Json, send: bool): seq<Emit> {
    match PathIndex(p)
    case None => events
    case Some(i) =>
      match ResolveIndex(i, |types|)
      case None => events
      case Some(j) =>
        var ty := types[j];
        if ty == SEARCH || (ty == THINK && !send) then events
        else events + [Text(PyStr(v), Indexed(ty))]
  }

  lemma IndexedEventsAt(types: seq<Json>, events: seq<Emit>, p: string, v: Json, send: bool, j: nat)
    requires PathIndex(p).Some? && -|types| <= PathIndex(p).value < |types|
    requires j == if PathIndex(p).value >= 0 then PathIndex(p).value else |types| + PathIndex(p).value
    ensures j < |types|
    ensures IndexedEvents(types, events, p, v, send)
         == if types[j] == SEARCH || (types[j] == THINK && !send) then events else events + [Text(PyStr(v), Indexed(types[j]))]
  {
    assert ResolveIndex(PathIndex(p).value, |types|) == Some(j);
  }

  lemma IndexedEventsOutside(types: seq<Json>, events: seq<Emit>, p: string, v: Json, send: bool)
    requires !(PathIndex(p).Some? && -|types| <= PathIndex(p).value < |types|)
    ensures IndexedEvents(types, events, p, v, send) == events
  {
  }

  function AppendOp(a: Acc, frags: seq<Json>, send: bool): Acc {
    var g := FragFold(Progress(a.st, a.events, false), frags, send);
    a.(st := g.st, events := g.events, aborted := g.aborted)
  }

  /** One operation `{p, o, v}` of a line. */
  function OpStep(a: Acc, item: Json, anti: bool, send: bool): Acc {
    if !item.JObj? then a
    else
      var p := Get(item.members, "p");
      var o := Get(item.members, "o");
      var v := Get(item.members, "v");
      if anti && p == JStr("status") && v == JStr("CONTENT_FILTER") then
        CloseThinking(a, send).(finish := true, stop := true)
      else if p == JStr("status") then
        if v == JStr("FINISHED") then CloseThinking(a, send).(finish := true) else a
      else if (p == JStr("fragments") || p == JStr("response/fragments")) && o == JStr("APPEND") then
        if v.JArr? then AppendOp(a, v.items, send) else a
      else if Truthy(p) && !p.JStr? then
        a.(aborted := true)
      else if p.JStr? && IsContentPath(p.s) then
        a.(events := IndexedEvents(a.st.types, a.events, p.s, v, send))
      else a
  }

  function OpFold(a: Acc, ops: seq<Json>, anti: bool, send: bool): Acc
    decreases |ops|
  {
    if |ops| == 0 || a.stop || a.aborted then a
    else OpFold(OpStep(a, ops[0], anti, send), ops[1..], anti, send)
  }

  function Start(st: State): Acc {
    Acc(st, [], false, false, false)
  }

  /** The decoded JSON value of a `data: ` line. */
  function Decode(st: State, data: Json, anti: bool, send: bool): Acc {
    match PyIn("v", data)
    case None => Start(st).(aborted := true)
    case Some(hasV) =>
      if !hasV then Start(st)
      else if !data.JObj? then Start(st).(aborted := true)
      else
        var v := Get(data.members, "v");
        var p := Get(data.members, "p");
        var o := Get(data.members, "o");
        if p == JNull || (p == JStr("response") && o == JStr("BATCH")) then
          if v.JArr? then OpFold(Start(st), v.items, anti, send)
          else if v.JStr? then
            if st.thinking && !send then Start(st)
            else Start(st).(events := [Text(v.s, Bare(st.thinking))])
          else Start(st)
        else
          OpFold(Start(st), [JObj([Member("p", p), Member("o", o), Member("v", v)])], anti, send)
  }

  // ---------------------------------------------------------------------
  // Lines and chunks
  // ---------------------------------------------------------------------

  /** What one line leaves: the new state, its frame, the events of that frame, and whether it raised. */
  datatype LineOut = LineOut(st: State, frame: Option<Frame>, events: seq<Emit>, aborted: bool)

  function Skip(st: State): LineOut {
    LineOut(st, None, [], false)
  }

  /** A line's frame exists iff it carries text or a finish reason; a line that raised emits nothing. */
  function Close(a: Acc): LineOut {
    if a.aborted then LineOut(a.st, None, [], true)
    else if Render(a.events) != "" || a.finish then
      LineOut(a.st, Some(Frame(Render(a.events), a.finish)), a.events, false)
    else LineOut(a.st, None, [], false)
  }

  function LineStep(st: State, line: string, parse: string -> Option<Json>, anti: bool, send: bool): LineOut {
    if !StartsWith(line, "data: ") then Skip(st)
    else
      var d := line[6..];
      if Strip(d) == "[DONE]" then Skip(st)
      else
        match parse(d)
        case None => Skip(st)
        case Some(data) => Close(Decode(st, data, anti, send))
  }

  /** What a chunk leaves: the new state, its frames, the events behind them, and whether it stopped early. */
  datatype ChunkOut = ChunkOut(st: State, frames: seq<Frame>, trace: seq<Emit>, aborted: bool)

  function FrameList(f: Option<Frame>): seq<Frame> {
    if f.Some? then [f.value] else []
  }

  function AddLine(c: ChunkOut, lo: LineOut): ChunkOut {
    ChunkOut(lo.st, c.frames + FrameList(lo.frame), c.trace + lo.events, lo.aborted)
  }

  function ChunkFold(c: ChunkOut, lines: seq<string>, parse: string -> Option<Json>, anti: bool, send: bool): ChunkOut
    decreases |lines|
  {
    if |lines| == 0 || c.aborted then c
    else ChunkFold(AddLine(c, LineStep(c.st, lines[0], parse, anti, send)), lines[1..], parse, anti, send)
  }

  lemma ChunkFoldStep(c: ChunkOut, lines: seq<string>, i: nat, parse: string -> Option<Json>, anti: bool, send: bool)
    requires i < |lines| && !c.aborted
    ensures ChunkFold(c, lines[i..], parse, anti, send)
         == ChunkFold(AddLine(c, LineStep(c.st, lines[i], parse, anti, send)), lines[i + 1..], parse, anti, send)
  {
    assert lines[i..][1..] == lines[i + 1..];
  }

  /** The whole chunk: its text split on newlines, the lines handled in order until one raises. */
  function ChunkSpec(st: State, text: string, parse: string -> Option<Json>, anti: bool, send: bool): ChunkOut {
    ChunkFold(ChunkOut(st, [], [], false), Split(text, '\n'), parse, anti, send)
  }

  /** The JSON object of a frame, as put on the response queue; `created` is the wall clock. */
  function FrameJson(f: Frame, created: int): Json {
    JObj([
      Member("id", JStr("chatcmpl-custom")),
      Member("object", JStr("chat.completion.chunk")),
      Member("created", JInt(created)),
      Member("model", JStr("deepseek-chat")),
      Member("choices", JArr([JObj(ChoiceMembers(f))]))])
  }

  /** The one choice of a frame: its delta and its finish reason. */
  function ChoiceMembers(f: Frame): seq<Member> {
    [Member("index", JInt(0)),
     Member("delta", DeltaJson(f)),
     Member("finish_reason", if f.finish then JStr("stop") else JNull)]
  }

  /** The delta holds the content only when there is some. */
  function DeltaJson(f: Frame): Json {
    if f.content != "" then JObj([Member("content", JStr(f.content))]) else JObj([])
  }

  // ---------------------------------------------------------------------
  // Properties of the decoder
  // ---------------------------------------------------------------------

  /** Text that came from a SEARCH fragment. */
  predicate SearchText(e: Emit) {
    e.Text? && (e.origin.Initial? || e.origin.Indexed?) && e.origin.ftype == SEARCH
  }

  /** A think marker, or text produced while thinking or by a THINK fragment. */
  predicate ThinkOutput(e: Emit) {
    e.OpenThink? || e.CloseThink?
    || (e.Text? && (e.origin == Bare(true) || ((e.origin.Initial? || e.origin.Indexed?) && e.origin.ftype == THINK)))
  }

  /** What may reach the client: never search text, and thinking output only when it is sent. */
  predicate Allowed(e: Emit, send: bool) {
    !SearchText(e) && (send || !ThinkOutput(e))
  }

  predicate AllAllowed(es: seq<Emit>, send: bool) {
    forall i :: 0 <= i < |es| ==> Allowed(es[i], send)
  }

  lemma FragStepAllowed(g: Progress, frag: Json, send: bool)
    requires AllAllowed(g.events, send)
    ensures AllAllowed(FragStep(g, frag, send).events, send)
  {
  }

  lemma {:induction false} FragFoldAllowed(g: Progress, frags: seq<Json>, send: bool)
    requires AllAllowed(g.events, send)
    ensures AllAllowed(FragFold(g, frags, send).events, send)
    decreases |frags|
  {
    if |frags| > 0 && !g.aborted {
      FragStepAllowed(g, frags[0], send);
      FragFoldAllowed(FragStep(g, frags[0], send), frags[1..], send);
    }
  }

  lemma AllowedSnoc(es: seq<Emit>, e: Emit, send: bool)
    requires AllAllowed(es, send) && Allowed(e, send)
    ensures AllAllowed(es + [e], send)
  {
    forall i | 0 <= i < |es + [e]|
      ensures Allowed((es + [e])[i], send)
    {
      if i < |es| {
        assert (es + [e])[i] == es[i];
      }
    }
  }

  lemma CloseThinkingAllowed(a: Acc, send: bool)
    requires AllAllowed(a.events, send)
    ensures AllAllowed(CloseThinking(a, send).events, send)
  {
    if a.st.thinking && send {
      AllowedSnoc(a.events, CloseThink, send);
    }
  }

  lemma IndexedAllowed(types: seq<Json>, events: seq<Emit>, p: string, v: Json, send: bool)
    requires AllAllowed(events, send)
    ensures AllAllowed(IndexedEvents(types, events, p, v, send), send)
  {
    var r := IndexedEvents(types, events, p, v, send);
    if r != events {
      var i := PathIndex(p).value;
      var j := ResolveIndex(i, |types|).value;
      AllowedSnoc(events, Text(PyStr(v), Indexed(types[j])), send);
    }
  }

  lemma OpStepAllowed(a: Acc, item: Json, anti: bool, send: bool)
    requires AllAllowed(a.events, send)
    ensures AllAllowed(OpStep(a, item, anti, send).events, send)
  {
    if item.JObj? {
      var p := Get(item.members, "p");
      var o := Get(item.members, "o");
      var v := Get(item.members, "v");
      var r := OpStep(a, item, anti, send);
      if (anti && p == JStr("status") && v == JStr("CONTENT_FILTER")) || (p == JStr("status") && v == JStr("FINISHED")) {
        CloseThinkingAllowed(a, send);
        assert r.events == CloseThinking(a, send).events;
      } else if p == JStr("status") {
        assert r == a;
      } else if (p == JStr("fragments") || p == JStr("response/fragments")) && o == JStr("APPEND") {
        if v.JArr? {
          FragFoldAllowed(Progress(a.st, a.events, false), v.items, send);
          assert r == AppendOp(a, v.items, send);
        }
      } else if p.JStr? && IsContentPath(p.s) {
        IndexedAllowed(a.st.types, a.events, p.s, v, send);
        assert r.events == IndexedEvents(a.st.types, a.events, p.s, v, send);
      }
    }
  }

  lemma {:induction false} OpFoldAllowed(a: Acc, ops: seq<Json>, anti: bool, send: bool)
    requires AllAllowed(a.events, send)
    ensures AllAllowed(OpFold(a, ops, anti, send).events, send)
    decreases |ops|
  {
    if |ops| > 0 && !a.stop && !a.aborted {
      OpStepAllowed(a, ops[0], anti, send);
      OpFoldAllowed(OpStep(a, ops[0], anti, send), ops[1..], anti, send);
    }
  }

  lemma DecodeAllowed(st: State, data: Json, anti: bool, send: bool)
    ensures AllAllowed(Decode(st, data, anti, send).events, send)
  {
    if data.JObj? {
      var v := Get(data.members, "v");
      var p := Get(data.members, "p");
      var o := Get(data.members, "o");
      if v.JArr? {
        OpFoldAllowed(Start(st), v.items, anti, send);
      }
      OpFoldAllowed(Start(st), [JObj([Member("p", p), Member("o", o), Member("v", v)])], anti, send);
    }
  }

  /** A line's events: allowed, empty without a frame, and rendering to the frame's text. */
  lemma LineShape(st: State, line: string, parse: string -> Option<Json>, anti: bool, send: bool)
    ensures var lo := LineStep(st, line, parse, anti, send);
            && AllAllowed(lo.events, send)
            && (lo.frame.None? ==> lo.events == [])
            && (lo.frame.Some? ==> lo.frame.value.content == Render(lo.events) && Meaningful(lo.frame.value))
  {
    if StartsWith(line, "data: ") && Strip(line[6..]) != "[DONE]" && parse(line[6..]).Some? {
      var a := Decode(st, parse(line[6..]).value, anti, send);
      DecodeAllowed(st, parse(line[6..]).value, anti, send);
      CloseShape(a, send);
    }
  }

  lemma CloseShape(a: Acc, send: bool)
    requires AllAllowed(a.events, send)
    ensures var lo := Close(a);
            && AllAllowed(lo.events, send)
            && (lo.frame.None? ==> lo.events == [])
            && (lo.frame.Some? ==> lo.frame.value.content == Render(lo.events) && Meaningful(lo.frame.value))
  {
  }

  /** The text of a sequence of frames, as the client concatenates it. */
  function Contents(frames: seq<Frame>): string {
    if |frames| == 0 then "" else Contents(frames[..|frames| - 1]) + frames[|frames| - 1].content
  }

  lemma {:induction false} ContentsCons(frames: seq<Frame>)
    requires |frames| > 0
    ensures Contents(frames) == frames[0].content + Contents(frames[1..])
    decreases |frames|
  {
    if |frames| > 1 {
      var init := frames[..|frames| - 1];
      ContentsCons(init);
      assert init[1..] == frames[1..][..|frames[1..]| - 1];
      assert init[0] == frames[0];
    } else {
      assert frames[..0] == [] && frames[1..] == [];
    }
  }

  /** A frame is only sent when it carries text or a finish reason. */
  predicate Meaningful(f: Frame) {
    f.content != "" || f.finish
  }

  /** The invariant of the chunk fold. */
  predicate ChunkInv(c: ChunkOut, send: bool) {
    AllAllowed(c.trace, send)
    && Contents(c.frames) == Render(c.trace)
    && forall i :: 0 <= i < |c.frames| ==> Meaningful(c.frames[i])
  }

  lemma AddLineInv(c: ChunkOut, lo: LineOut, send: bool)
    requires ChunkInv(c, send)
    requires AllAllowed(lo.events, send)
    requires lo.frame.None? ==> lo.events == []
    requires lo.frame.Some? ==> lo.frame.value.content == Render(lo.events) && Meaningful(lo.frame.value)
    ensures ChunkInv(AddLine(c, lo), send)
    ensures |AddLine(c, lo).frames| <= |c.frames| + 1
  {
    var c' := AddLine(c, lo);
    RenderConcat(c.trace, lo.events);
    if lo.frame.Some? {
      assert c'.frames[..|c'.frames| - 1] == c.frames;
    } else {
      assert c'.frames == c.frames;
      assert c'.trace == c.trace;
    }
    forall i | 0 <= i < |c'.trace|
      ensures Allowed(c'.trace[i], send)
    {
      if i < |c.trace| {
        assert c'.trace[i] == c.trace[i];
      } else {
        assert c'.trace[i] == lo.events[i - |c.trace|];
      }
    }
  }

  lemma {:induction false} ChunkFoldInv(c: ChunkOut, lines: seq<string>, parse: string -> Option<Json>, anti: bool, send: bool)
    requires ChunkInv(c, send)
    ensures ChunkInv(ChunkFold(c, lines, parse, anti, send), send)
    ensures |ChunkFold(c, lines, parse, anti, send).frames| <= |c.frames| + |lines|
    decreases |lines|
  {
    if |lines| > 0 && !c.aborted {
      LineShape(c.st, lines[0], parse, anti, send);
      AddLineInv(c, LineStep(c.st, lines[0], parse, anti, send), send);
      ChunkFoldInv(AddLine(c, LineStep(c.st, lines[0], parse, anti, send)), lines[1..], parse, anti, send);
    }
  }

  /**
   * What a chunk sends: at most one frame per line, each with text or a
   * finish reason; the frames' text is exactly the rendering of the events
   * behind them; and no event is search text, nor, with thinking not sent,
   * a think marker or thinking text.
   */
  lemma ChunkSafety(st: State, text: string, parse: string -> Option<Json>, anti: bool, send: bool)
    ensures var out := ChunkSpec(st, text, parse, anti, send);
            && |out.frames| <= |Split(text, '\n')|
            && (forall i :: 0 <= i < |out.frames| ==> Meaningful(out.frames[i]))
            && Contents(out.frames) == Render(out.trace)
            && (forall i :: 0 <= i < |out.trace| ==> !SearchText(out.trace[i]))
            && (!send ==> forall i :: 0 <= i < |out.trace| ==> !ThinkOutput(out.trace[i]))
  {
    ChunkFoldInv(ChunkOut(st, [], [], false), Split(text, '\n'), parse, anti, send);
    AllowedSafe(ChunkSpec(st, text, parse, anti, send).trace, send);
  }

  lemma AllowedSafe(trace: seq<Emit>, send: bool)
    requires AllAllowed(trace, send)
    ensures forall i :: 0 <= i < |trace| ==> !SearchText(trace[i])
    ensures !send ==> forall i :: 0 <= i < |trace| ==> !ThinkOutput(trace[i])
  {
    assert forall i :: 0 <= i < |trace| ==> Allowed(trace[i], send);
  }

  /** Lines that are not `data: `, the `[DONE]` marker, or undecodable JSON send nothing and change nothing. */
  lemma IgnoredLines(st: State, line: string, parse: string -> Option<Json>, anti: bool, send: bool)
    requires !StartsWith(line, "data: ") || Strip(line[6..]) == "[DONE]" || parse(line[6..]).None?
    ensures LineStep(st, line, parse, anti, send) == LineOut(st, None, [], false)
  {
  }

  // Registry of fragment types

  lemma FragStepTypes(g: Progress, frag: Json, send: bool)
    ensures FragStep(g, frag, send).st.types
         == g.st.types + (if frag.JObj? then [Get(frag.members, "type")] else [])
  {
  }

  /** How many descriptors a fold handles: all of them, or up to and including the one that raises. */
  function FragCount(g: Progress, frags: seq<Json>, send: bool): (k: nat)
    ensures k <= |frags|
    decreases |frags|
  {
    if |frags| == 0 || g.aborted then 0 else 1 + FragCount(FragStep(g, frags[0], send), frags[1..], send)
  }

  /**
   * The descriptors of an APPEND register one type each, in order, for every
   * dict (its `type`, `None` when missing); when a descriptor raises, the
   * types registered up to and including it stay.
   */
  lemma {:induction false} FragFoldTypes(g: Progress, frags: seq<Json>, send: bool)
    ensures var r := FragFold(g, frags, send);
            var k := FragCount(g, frags, send);
            && r.st.types == g.st.types + TypesOf(frags[..k])
            && (!r.aborted && !g.aborted ==> k == |frags|)
    decreases |frags|
  {
    if |frags| == 0 || g.aborted {
      assert frags[..0] == [];
    } else {
      var g1 := FragStep(g, frags[0], send);
      FragStepTypes(g, frags[0], send);
      FragFoldTypes(g1, frags[1..], send);
      TypesOfPrefix(frags, FragCount(g1, frags[1..], send));
    }
  }

  /** The types of a prefix of `k + 1` descriptors: the first one's, then those of the next `k`. */
  lemma TypesOfPrefix(frags: seq<Json>, k: nat)
    requires k < |frags|
    ensures TypesOf(frags[..k + 1])
         == (if frags[0].JObj? then [Get(frags[0].members, "type")] else []) + TypesOf(frags[1..][..k])
  {
    assert frags[..k + 1][0] == frags[0] && frags[..k + 1][1..] == frags[1..][..k];
  }

  /** An APPEND operation: `p` is `fragments` or `response/fragments`, `o` is APPEND and `v` a list. */
  predicate IsAppendOp(item: Json) {
    item.JObj?
    && (Get(item.members, "p") == JStr("fragments") || Get(item.members, "p") == JStr("response/fragments"))
    && Get(item.members, "o") == JStr("APPEND")
    && Get(item.members, "v").JArr?
  }

  /** Only an APPEND operation touches the registry, and it appends the descriptors' types. */
  lemma OpStepTypes(a: Acc, item: Json, anti: bool, send: bool)
    ensures var r := OpStep(a, item, anti, send);
            && (!IsAppendOp(item) ==> r.st.types == a.st.types)
            && (IsAppendOp(item) ==>
                  exists k :: 0 <= k <= |Get(item.members, "v").items|
                    && r.st.types == a.st.types + TypesOf(Get(item.members, "v").items[..k])
                    && (!r.aborted ==> k == |Get(item.members, "v").items|))
  {
    if IsAppendOp(item) {
      var frags := Get(item.members, "v").items;
      FragFoldTypes(Progress(a.st, a.events, false), frags, send);
      var k := FragCount(Progress(a.st, a.events, false), frags, send);
      assert 0 <= k <= |frags|;
    } else if item.JObj? && Get(item.members, "v").JArr? {
      var p := Get(item.members, "p");
      if p == JStr("fragments") || p == JStr("response/fragments") {
        assert Get(item.members, "o") != JStr("APPEND");
      }
    }
  }

  /** The registry only grows: a line appends types and never rewrites registered ones. */
  lemma {:induction false} OpFoldTypes(a: Acc, ops: seq<Json>, anti: bool, send: bool)
    ensures a.st.types <= OpFold(a, ops, anti, send).st.types
    decreases |ops|
  {
    if |ops| > 0 && !a.stop && !a.aborted {
      var b := OpStep(a, ops[0], anti, send);
      OpStepTypes(a, ops[0], anti, send);
      OpFoldTypes(b, ops[1..], anti, send);
    }
  }

  lemma DecodeTypes(st: State, data: Json, anti: bool, send: bool)
    ensures st.types <= Decode(st, data, anti, send).st.types
  {
    if data.JObj? {
      var v := Get(data.members, "v");
      var p := Get(data.members, "p");
      var o := Get(data.members, "o");
      if v.JArr? {
        OpFoldTypes(Start(st), v.items, anti, send);
      }
      OpFoldTypes(Start(st), [JObj([Member("p", p), Member("o", o), Member("v", v)])], anti, send);
    }
  }

  lemma LineTypes(st: State, line: string, parse: string -> Option<Json>, anti: bool, send: bool)
    ensures st.types <= LineStep(st, line, parse, anti, send).st.types
  {
    if StartsWith(line, "data: ") && Strip(line[6..]) != "[DONE]" && parse(line[6..]).Some? {
      DecodeTypes(st, parse(line[6..]).value, anti, send);
    }
  }

  lemma {:induction false} ChunkFoldTypes(c: ChunkOut, lines: seq<string>, parse: string -> Option<Json>, anti: bool, send: bool)
    ensures c.st.types <= ChunkFold(c, lines, parse, anti, send).st.types
    decreases |lines|
  {
    if |lines| > 0 && !c.aborted {
      LineTypes(c.st, lines[0], parse, anti, send);
      ChunkFoldTypes(AddLine(c, LineStep(c.st, lines[0], parse, anti, send)), lines[1..], parse, anti, send);
    }
  }

  /** Across a chunk the registry keeps every registered type at its index. */
  lemma ChunkTypes(st: State, text: string, parse: string -> Option<Json>, anti: bool, send: bool)
    ensures st.types <= ChunkSpec(st, text, parse, anti, send).st.types
  {
    ChunkFoldTypes(ChunkOut(st, [], [], false), Split(text, '\n'), parse, anti, send);
  }

  // Single operations

  /** `status` = FINISHED: the line finishes, thinking ends, and `</think>` closes an open, sent think block. */
  lemma FinishedOp(a: Acc, item: Json, anti: bool, send: bool)
    requires item.JObj? && Get(item.members, "p") == JStr("status") && Get(item.members, "v") == JStr("FINISHED")
    ensures var r := OpStep(a, item, anti, send);
            && r.finish && !r.st.thinking && r.st.types == a.st.types
            && r.events == a.events + (if a.st.thinking && send then [CloseThink] else [])
            && r.stop == a.stop && r.aborted == a.aborted
  {
  }

  /** A RESPONSE descriptor ends an open think block before its own text. */
  lemma ResponseCloses(g: Progress, frag: Json, send: bool)
    requires frag.JObj? && Get(frag.members, "type") == RESPONSE && g.st.thinking
    ensures var r := FragStep(g, frag, send);
            var closed := g.events + (if send then [CloseThink] else []);
            && !r.st.thinking
            && |closed| <= |r.events| && r.events[..|closed|] == closed
            && (r.events == closed || r.events == closed + [Text(Get(frag.members, "content").s, Initial(RESPONSE))])
  {
    var r := FragStep(g, frag, send);
    var closed := g.events + (if send then [CloseThink] else []);
    assert r.events == closed || r.events == closed + [Text(Get(frag.members, "content").s, Initial(RESPONSE))];
    if r.events != closed {
      assert (closed + [Text(Get(frag.members, "content").s, Initial(RESPONSE))])[..|closed|] == closed;
    }
  }

  /** A fragment type whose text is sent: not SEARCH, and THINK only when thinking is sent. */
  predicate Shown(ty: Json, send: bool) {
    ty != SEARCH && (ty != THINK || send)
  }

  /**
   * A `.../<i>/content` update sends `str(v)` exactly when `i` is a Python
   * integer that indexes the registry (negative from the end) and the type
   * there is shown; in every case nothing but the text changes.
   */
  lemma IndexedUpdateLaw(a: Acc, item: Json, anti: bool, send: bool, path: string)
    requires item.JObj? && Get(item.members, "p") == JStr(path) && IsContentPath(path)
    ensures var r := OpStep(a, item, anti, send);
            var n := |a.st.types|;
            var i := PathIndex(path);
            && r.st == a.st && r.finish == a.finish && r.stop == a.stop && r.aborted == a.aborted
            && (r.events != a.events <==>
                  i.Some? && -(n as int) <= i.value < n
                  && Shown(a.st.types[if i.value >= 0 then i.value else n + i.value], send))
            && (r.events != a.events ==>
                  r.events == a.events + [Text(PyStr(Get(item.members, "v")),
                                               Indexed(a.st.types[if i.value >= 0 then i.value else n + i.value]))])
  {
  }

  lemma {:induction false} OpFoldConcat(a: Acc, s: seq<Json>, t: seq<Json>, anti: bool, send: bool)
    ensures OpFold(a, s + t, anti, send) == OpFold(OpFold(a, s, anti, send), t, anti, send)
    decreases |s|
  {
    if |s| == 0 {
      assert s + t == t;
    } else if !a.stop && !a.aborted {
      assert (s + t)[0] == s[0] && (s + t)[1..] == s[1..] + t;
      OpFoldConcat(OpStep(a, s[0], anti, send), s[1..], t, anti, send);
    }
  }

  /** The content filter check on one operation. */
  predicate IsFilterOp(item: Json) {
    item.JObj? && Get(item.members, "p") == JStr("status") && Get(item.members, "v") == JStr("CONTENT_FILTER")
  }

  /**
   * With anti-censorship on, a CONTENT_FILTER status finishes the line,
   * ends thinking and skips the remaining operations of that line; the text
   * of the operations before it is kept, and the line does not raise.
   */
  lemma FilterStopsLine(a: Acc, ops: seq<Json>, k: nat, send: bool)
    requires k < |ops| && IsFilterOp(ops[k])
    requires !OpFold(a, ops[..k], true, send).stop && !OpFold(a, ops[..k], true, send).aborted
    ensures var b := OpFold(a, ops[..k], true, send);
            var r := OpFold(a, ops, true, send);
            && r == OpStep(b, ops[k], true, send)
            && r.finish && r.stop && !r.aborted && !r.st.thinking && r.st.types == b.st.types
            && r.events == b.events + (if b.st.thinking && send then [CloseThink] else [])
  {
    var b := OpFold(a, ops[..k], true, send);
    assert ops == ops[..k] + ops[k..];
    OpFoldConcat(a, ops[..k], ops[k..], true, send);
    assert ops[k..][0] == ops[k];
    var r1 := OpStep(b, ops[k], true, send);
    assert r1.stop;
    assert OpFold(b, ops[k..], true, send) == OpFold(r1, ops[k..][1..], true, send);
  }

  // ---------------------------------------------------------------------
  // The decoder object
  // ---------------------------------------------------------------------

  /**
   * The driver's decoding state. Each method is proved to leave the fields
   * and return exactly what the folds above describe.
   */
  class Decoder {
    var fragmentTypes: seq<Json>
    var thinkingActive: bool

    function St(): State
      reads this
    {
      State(fragmentTypes, thinkingActive)
    }

    constructor()
      ensures St() == State([], false)
    {
      fragmentTypes := [];
      thinkingActive := false;
    }

    /** The reset done at the start of every generation. */
    method Reset()
      modifies this
      ensures St() == State([], false)
    {
      fragmentTypes := [];
      thinkingActive := false;
    }

    /** Handles one chunk of the upstream stream and returns the frames it puts on the queue, in order. */
    method ProcessChunk(text: string, parse: string -> Option<Json>, anti: bool, send: bool)
      returns (frames: seq<Frame>)
      modifies this
      ensures var out := ChunkSpec(old(St()), text, parse, anti, send);
              frames == out.frames && St() == out.st
    {
      var lines := Split(text, '\n');
      frames := [];
      ghost var trace: seq<Emit> := [];
      var aborted := false;
      var i := 0;
      assert lines[0..] == lines;
      while i < |lines| && !aborted
        invariant 0 <= i <= |lines|
        invariant ChunkSpec(old(St()), text, parse, anti, send)
               == ChunkFold(ChunkOut(St(), frames, trace, aborted), lines[i..], parse, anti, send)
        decreases |lines| - i
      {
        ghost var before := ChunkOut(St(), frames, trace, aborted);
        var frame, lineAborted, events := ProcessLine(lines[i], parse, anti, send);
        if frame.Some? {
          frames := frames + [frame.value];
        }
        trace := trace + events;
        aborted := lineAborted;
        ChunkFoldStep(before, lines, i, parse, anti, send);
        assert ChunkOut(St(), frames, trace, aborted) == AddLine(before, LineStep(before.st, lines[i], parse, anti, send));
        i := i + 1;
      }
    }

    /** One line of a chunk: at most one frame, and whether the line raised. */
    method ProcessLine(line: string, parse: string -> Option<Json>, anti: bool, send: bool)
      returns (frame: Option<Frame>, aborted: bool, ghost events: seq<Emit>)
      modifies this
      ensures LineStep(old(St()), line, parse, anti, send) == LineOut(St(), frame, events, aborted)
    {
      frame, aborted, events := None, false, [];
      if !StartsWith(line, "data: ") {
        return;
      }
      var d := line[6..];
      if Strip(d) == "[DONE]" {
        return;
      }
      var parsed := parse(d);
      if parsed.None? {
        return;
      }
      var content, finish, raised, evs := DecodeLine(parsed.value, anti, send);
      if raised {
        aborted := true;
      } else if content != "" || finish {
        frame, events := Some(Frame(content, finish)), evs;
      }
    }

    /** The decoded value of a line: bare text, a batch of operations, or one path-addressed operation. */
    method DecodeLine(data: Json, anti: bool, send: bool)
      returns (content: string, finish: bool, aborted: bool, ghost events: seq<Emit>)
      modifies this
      ensures var a := Decode(old(St()), data, anti, send);
              a.st == St() && a.events == events && a.finish == finish && a.aborted == aborted
      ensures content == Render(events)
    {
      content, finish, aborted, events := "", false, false, [];
      var hasV := PyIn("v", data);
      if hasV.None? || (hasV.value && !data.JObj?) {
        aborted := true;
        return;
      }
      if !hasV.value {
        return;
      }
      var v := Get(data.members, "v");
      var p := Get(data.members, "p");
      var o := Get(data.members, "o");
      var ops: seq<Json> := [];
      if p == JNull || (p == JStr("response") && o == JStr("BATCH")) {
        if v.JArr? {
          ops := v.items;
        } else if v.JStr? {
          if !thinkingActive || send {
            content, events := v.s, [Text(v.s, Bare(thinkingActive))];
            RenderSnoc([], Text(v.s, Bare(thinkingActive)));
          }
        }
      } else {
        ops := [JObj([Member("p", p), Member("o", o), Member("v", v)])];
      }
      var stop;
      content, finish, stop, aborted, events := ApplyOps(ops, anti, send, content, events);
    }

    /** The operations of one line, until one raises or the content filter stops the line. */
    method ApplyOps(ops: seq<Json>, anti: bool, send: bool, content0: string, ghost events0: seq<Emit>)
      returns (content: string, finish: bool, stop: bool, aborted: bool, ghost events: seq<Emit>)
      requires content0 == Render(events0)
      modifies this
      ensures var a := OpFold(Acc(old(St()), events0, false, false, false), ops, anti, send);
              a == Acc(St(), events, finish, stop, aborted)
      ensures content == Render(events)
    {
      content, finish, stop, aborted, events := content0, false, false, false, events0;
      var i := 0;
      assert ops[0..] == ops;
      while i < |ops| && !stop && !aborted
        invariant 0 <= i <= |ops|
        invariant content == Render(events)
        invariant OpFold(Acc(old(St()), events0, false, false, false), ops, anti, send)
               == OpFold(Acc(St(), events, finish, stop, aborted), ops[i..], anti, send)
        decreases |ops| - i
      {
        assert ops[i..][1..] == ops[i + 1..];
        content, finish, stop, aborted, events := ApplyOp(ops[i], anti, send, content, events, finish);
        i := i + 1;
      }
    }

    /** Ends an open think block, adding `</think>` when thinking is sent. */
    method EndThinking(send: bool, content0: string, ghost events0: seq<Emit>)
      returns (content: string, ghost events: seq<Emit>)
      requires content0 == Render(events0)
      modifies this
      ensures var a := CloseThinking(Acc(old(St()), events0, false, false, false), send);
              St() == a.st && events == a.events
      ensures content == Render(events)
    {
      content, events := content0, events0;
      if thinkingActive {
        if send {
          content, events := content + "</think>", events + [CloseThink];
          RenderSnoc(events0, CloseThink);
        }
        thinkingActive := false;
      }
    }

    /** One operation of a line. */
    method ApplyOp(item: Json, anti: bool, send: bool, content0: string, ghost events0: seq<Emit>, finish0: bool)
      returns (content: string, finish: bool, stop: bool, aborted: bool, ghost events: seq<Emit>)
      requires content0 == Render(events0)
      modifies this
      ensures var a := OpStep(Acc(old(St()), events0, finish0, false, false), item, anti, send);
              a == Acc(St(), events, finish, stop, aborted)
      ensures content == Render(events)
    {
      content, finish, stop, aborted, events := content0, finish0, false, false, events0;
      if !item.JObj? {
        return;
      }
      var p := Get(item.members, "p");
      var o := Get(item.members, "o");
      var v := Get(item.members, "v");
      if anti && p == JStr("status") && v == JStr("CONTENT_FILTER") {
        finish := true;
        content, events := EndThinking(send, content, events);
        stop := true;
      } else if p == JStr("status") {
        if v == JStr("FINISHED") {
          finish := true;
          content, events := EndThinking(send, content, events);
        }
      } else if (p == JStr("fragments") || p == JStr("response/fragments")) && o == JStr("APPEND") {
        if v.JArr? {
          content, aborted, events := ApplyFragments(v.items, send, content, events);
        }
      } else if Truthy(p) && !p.JStr? {
        aborted := true;
      } else if p.JStr? && IsContentPath(p.s) {
        content, events := IndexedText(p.s, v, send, content, events);
      }
    }

    /** A `.../<i>/content` update; an index that is not an integer or out of range drops it. */
    method IndexedText(path: string, v: Json, send: bool, content0: string, ghost events0: seq<Emit>)
      returns (content: string, ghost events: seq<Emit>)
      requires content0 == Render(events0)
      ensures events == IndexedEvents(fragmentTypes, events0, path, v, send)
      ensures content == Render(events)
      ensures content == Render(IndexedEvents(fragmentTypes, events0, path, v, send))
    {
      content, events := content0, events0;
      var types := fragmentTypes;
      var index := PathIndex(path);
      if index.Some? && index.value < |types| && -|types| <= index.value {
        var j := if index.value >= 0 then index.value else |types| + index.value;
        var ty := types[j];
        var text := PyStr(v);
        IndexedEventsAt(types, events0, path, v, send, j);
        content, events := EmitIndexed(ty, text, send, content0, events0);
      } else {
        IndexedEventsOutside(types, events0, path, v, send);
      }
    }

    /** The text of a registered fragment of type `ty`: search text is never sent, thinking only when `send`. */
    static method EmitIndexed(ty: Json, text: string, send: bool, content0: string, ghost events0: seq<Emit>)
      returns (content: string, ghost events: seq<Emit>)
      requires content0 == Render(events0)
      ensures events == if ty == SEARCH || (ty == THINK && !send) then events0 else events0 + [Text(text, Indexed(ty))]
      ensures content == Render(events)
      ensures content == if ty == SEARCH || (ty == THINK && !send) then content0 else content0 + text
    {
      content, events := content0, events0;
      if ty == THINK {
        if send {
          RenderSnoc(events0, Text(text, Indexed(ty)));
          content, events := content + text, events + [Text(text, Indexed(ty))];
        }
      } else if ty == SEARCH {
      } else {
        RenderSnoc(events0, Text(text, Indexed(ty)));
        content, events := content + text, events + [Text(text, Indexed(ty))];
      }
    }

    /** The descriptors of an APPEND operation, in order, until one raises. */
    method ApplyFragments(frags: seq<Json>, send: bool, content0: string, ghost events0: seq<Emit>)
      returns (content: string, aborted: bool, ghost events: seq<Emit>)
      requires content0 == Render(events0)
      modifies this
      ensures FragFold(Progress(old(St()), events0, false), frags, send) == Progress(St(), events, aborted)
      ensures content == Render(events)
    {
      content, aborted, events := content0, false, events0;
      var i := 0;
      assert frags[0..] == frags;
      while i < |frags| && !aborted
        invariant 0 <= i <= |frags|
        invariant content == Render(events)
        invariant FragFold(Progress(old(St()), events0, false), frags, send)
               == FragFold(Progress(St(), events, aborted), frags[i..], send)
        decreases |frags| - i
      {
        assert frags[i..][1..] == frags[i + 1..];
        content, aborted, events := ApplyFragment(frags[i], send, content, events);
        i := i + 1;
      }
    }

    /** One fragment descriptor: its type is registered, thinking opens or closes, its text is added. */
    method ApplyFragment(frag: Json, send: bool, content0: string, ghost events0: seq<Emit>)
      returns (content: string, aborted: bool, ghost events: seq<Emit>)
      requires content0 == Render(events0)
      modifies this
      ensures FragStep(Progress(old(St()), events0, false), frag, send) == Progress(St(), events, aborted)
      ensures content == Render(events)
    {
      content, aborted, events := content0, false, events0;
      if !frag.JObj? {
        return;
      }
      var ty := Get(frag.members, "type");
      content, events := RegisterType(ty, send, content, events);
      content, aborted, events := InitialText(frag.members, ty, send, content, events);
    }

    method RegisterType(ty: Json, send: bool, content0: string, ghost events0: seq<Emit>)
      returns (content: string, ghost events: seq<Emit>)
      requires content0 == Render(events0)
      modifies this
      ensures Register(Progress(old(St()), events0, false), ty, send) == Progress(St(), events, false)
      ensures content == Render(events)
    {
      content, events := content0, events0;
      fragmentTypes := fragmentTypes + [ty];
      if ty == THINK {
        if send {
          RenderSnoc(events, OpenThink);
          content, events := content + "<think>", events + [OpenThink];
        }
        thinkingActive := true;
      }
      if ty == RESPONSE && thinkingActive {
        if send {
          RenderSnoc(events, CloseThink);
          content, events := content + "</think>", events + [CloseThink];
        }
        thinkingActive := false;
      }
    }

    /** The `content` of a new descriptor; a non-string one that would be appended raises. */
    method InitialText(members: seq<Member>, ty: Json, send: bool, content0: string, ghost events0: seq<Emit>)
      returns (content: string, aborted: bool, ghost events: seq<Emit>)
      requires content0 == Render(events0)
      ensures InitialContent(Progress(St(), events0, false), members, ty, send) == Progress(St(), events, aborted)
      ensures content == Render(events)
      ensures content == Render(InitialContent(Progress(St(), events0, false), members, ty, send).events)
      ensures aborted == InitialContent(Progress(St(), events0, false), members, ty, send).aborted
    {
      content, aborted, events := content0, false, events0;
      var c := Lookup(members, "content");
      if c.Some? {
        if ty == THINK {
          if send {
            if c.value.JStr? {
              RenderSnoc(events, Text(c.value.s, Initial(ty)));
              content, events := content + c.value.s, events + [Text(c.value.s, Initial(ty))];
            } else {
              aborted := true;
            }
          }
        } else if ty == SEARCH {
        } else if c.value.JStr? {
          RenderSnoc(events, Text(c.value.s, Initial(ty)));
          content, events := content + c.value.s, events + [Text(c.value.s, Initial(ty))];
        } else {
          aborted := true;
        }
      }
    }
  }
}
