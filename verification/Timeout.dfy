/**
  The timeout middleware (serbewr/middleware/timeout.go).  A handler and a timer share one
  response writer; a mutex makes every call one atomic operation, so an interleaving is a
  sequence of operations.  Header maps are heap objects whose value slices are arrays.
 */
module TimeoutProtocol {

  type View = map<string, seq<string>>

  datatype Party = Handler | Timer

  datatype Action = Head(code: int) | Body(data: string) | Flushed | Hijacked

  /** One effect on the underlying writer, with its header map at that moment. */
  datatype Event = Event(author: Party, action: Action, headers: View)

  /** The operations, with what the handler had in its own header map when it made the call. */
  datatype Op =
    | WriteHeaderOp(code: int, inner: View)
    | WriteOp(data: string, inner: View)
    | FlushOp(inner: View)
    | HijackOp(granted: bool)
    | DeadlineOp

  /** The shared state: the underlying writer and the two flags. */
  datatype Shared = Shared(outer: View, events: seq<Event>, written: bool, timedOut: bool)

  const TIMEOUT_BODY := "{\n  \"code\": \"GATEWAY_TIMEOUT\",\n  \"message\": \"Gateway timeout - request processing took too long\"\n}\n"

  function Response504(entry: View): seq<Event> {
    var headers := entry["Content-Type" := ["application/json"]];
    [Event(Timer, Head(504), headers), Event(Timer, Body(TIMEOUT_BODY), headers)]
  }

  function Start(entry: View): Shared { Shared(entry, [], false, false) }

  /** copyHeaders and the written flag, on the first write of the handler. */
  function Commit(s: Shared, inner: View): Shared {
    if s.written then s else s.(outer := inner, written := true)
  }

  function Record(s: Shared, action: Action): Shared {
    s.(events := s.events + [Event(Handler, action, s.outer)])
  }

  function Apply(s: Shared, op: Op, canFlush: bool): Shared {
    match op
    case WriteHeaderOp(code, inner) =>
      if s.written || s.timedOut then s else Record(Commit(s, inner), Head(code))
    case WriteOp(data, inner) =>
      if s.timedOut then s else Record(Commit(s, inner), Body(data))
    case FlushOp(inner) =>
      if s.timedOut then s
      else if canFlush then Record(Commit(s, inner), Flushed) else Commit(s, inner)
    case HijackOp(granted) =>
      if s.timedOut || !granted then s else Record(s, Hijacked).(written := true)
    case DeadlineOp =>
      if s.written then s.(timedOut := true)
      else Shared(s.outer["Content-Type" := ["application/json"]], s.events + Response504(s.outer), true, true)
  }

  function Run(entry: View, ops: seq<Op>, canFlush: bool): Shared {
    if ops == [] then Start(entry) else Apply(Run(entry, ops[..|ops| - 1], canFlush), ops[|ops| - 1], canFlush)
  }

  predicate HandlerOnly(events: seq<Event>) {
    forall i :: 0 <= i < |events| ==> events[i].author == Handler
  }

  /** What every operation keeps. */
  predicate OneOwner(entry: View, s: Shared) {
    && (!s.written ==> s.events == [] && s.outer == entry && !s.timedOut)
    && (s.written && !s.timedOut ==> HandlerOnly(s.events))
    && (s.timedOut ==> HandlerOnly(s.events) || s.events == Response504(entry))
  }

  lemma ApplyKeepsOwner(entry: View, s: Shared, op: Op, canFlush: bool)
    requires OneOwner(entry, s)
    ensures OneOwner(entry, Apply(s, op, canFlush))
  {
  }

  /**
    In every interleaving the underlying writer sees either events of the handler only or
    exactly one 504 response, whose headers are those on entry plus Content-Type.
   */
  lemma {:induction false} TraceHasOneOwner(entry: View, ops: seq<Op>, canFlush: bool)
    ensures var s := Run(entry, ops, canFlush);
            OneOwner(entry, s) && (HandlerOnly(s.events) || s.events == Response504(entry))
  {
    if ops != [] {
      var n := |ops| - 1;
      TraceHasOneOwner(entry, ops[..n], canFlush);
      ApplyKeepsOwner(entry, Run(entry, ops[..n], canFlush), ops[n], canFlush);
    }
  }

  /** Once the timeout is marked nothing reaches the writer, neither events nor headers. */
  lemma {:induction false} NothingAfterDeadline(entry: View, before: seq<Op>, after: seq<Op>, canFlush: bool)
    ensures Run(entry, before + [DeadlineOp] + after, canFlush) == Run(entry, before + [DeadlineOp], canFlush)
  {
    var start := before + [DeadlineOp];
    assert start[..|start| - 1] == before;
    if after == [] {
      assert start + after == start;
    } else {
      var n := |after| - 1;
      NothingAfterDeadline(entry, before, after[..n], canFlush);
      assert (start + after)[..|start + after| - 1] == start + after[..n];
      assert (start + after)[|start + after| - 1] == after[n];
      assert start[|start| - 1] == DeadlineOp;
      assert Run(entry, start, canFlush) == Apply(Run(entry, before, canFlush), DeadlineOp, canFlush);
    }
  }

  predicate Commits(op: Op) { op.WriteHeaderOp? || op.WriteOp? || op.FlushOp? || (op.HijackOp? && op.granted) }

  lemma {:induction false} WrittenExactlyByCommit(entry: View, ops: seq<Op>, canFlush: bool)
    requires forall i :: 0 <= i < |ops| ==> !ops[i].DeadlineOp?
    ensures !Run(entry, ops, canFlush).timedOut
    ensures Run(entry, ops, canFlush).written <==> exists i :: 0 <= i < |ops| && Commits(ops[i])
  {
    if ops != [] {
      var n := |ops| - 1;
      WrittenExactlyByCommit(entry, ops[..n], canFlush);
      if exists i :: 0 <= i < |ops| && Commits(ops[i]) {
        var i :| 0 <= i < |ops| && Commits(ops[i]);
        if i < n { assert Commits(ops[..n][i]); }
      }
      if i :| 0 <= i < n && Commits(ops[..n][i]) { assert Commits(ops[i]); }
    }
  }

  /** The client gets the 504 exactly when the handler committed nothing before the deadline. */
  lemma TimeoutSentExactlyWhenUncommitted(entry: View, before: seq<Op>, after: seq<Op>, canFlush: bool)
    requires forall i :: 0 <= i < |before| ==> !before[i].DeadlineOp?
    ensures Run(entry, before + [DeadlineOp] + after, canFlush).events == Response504(entry)
        <==> !exists i :: 0 <= i < |before| && Commits(before[i])
  {
    NothingAfterDeadline(entry, before, after, canFlush);
    WrittenExactlyByCommit(entry, before, canFlush);
    TraceHasOneOwner(entry, before, canFlush);
    var start := before + [DeadlineOp];
    assert start[..|start| - 1] == before;
    var s := Run(entry, before, canFlush);
    assert Run(entry, start, canFlush) == Apply(s, DeadlineOp, canFlush);
    if s.written && s.events != [] {
      assert s.events[0].author == Handler && Response504(entry)[0].author == Timer;
    }
  }

  // ---- What the handler's events say, read off its calls ------------------------------

  /** The first call that commits the response, or the length if none does. */
  function FirstCommit(ops: seq<Op>): (k: nat)
    ensures k <= |ops| && (k < |ops| ==> Commits(ops[k])) && forall i :: 0 <= i < k ==> !Commits(ops[i])
  {
    if ops == [] then 0 else if Commits(ops[0]) then 0 else 1 + FirstCommit(ops[1..])
  }

  /** The headers a first committing call fixes: the handler's own, but those of entry for a hijack. */
  function ViewOf(op: Op, entry: View): View {
    match op
    case WriteHeaderOp(_, inner) => inner
    case WriteOp(_, inner) => inner
    case FlushOp(inner) => inner
    case _ => entry
  }

  function CommittedView(entry: View, ops: seq<Op>): View {
    if FirstCommit(ops) < |ops| then ViewOf(ops[FirstCommit(ops)], entry) else entry
  }

  /** What one call does to the writer when there is no deadline: a WriteHeader counts only as the first to commit. */
  function EffectOf(op: Op, first: bool, canFlush: bool): seq<Action> {
    match op
    case WriteHeaderOp(code, _) => if first then [Head(code)] else []
    case WriteOp(data, _) => [Body(data)]
    case FlushOp(_) => if canFlush then [Flushed] else []
    case HijackOp(granted) => if granted then [Hijacked] else []
    case DeadlineOp => []
  }

  function CallEffect(ops: seq<Op>, k: nat, canFlush: bool): seq<Action>
    requires k < |ops|
  {
    EffectOf(ops[k], k == FirstCommit(ops), canFlush)
  }

  /** The effects of the first `n` calls, in order. */
  function Effects(ops: seq<Op>, n: nat, canFlush: bool): seq<Action>
    requires n <= |ops|
  {
    if n == 0 then [] else Effects(ops, n - 1, canFlush) + CallEffect(ops, n - 1, canFlush)
  }

  /** These actions as the handler's events, all with one header view. */
  function ByHandler(actions: seq<Action>, headers: View): (events: seq<Event>)
    ensures |events| == |actions|
    ensures forall i :: 0 <= i < |actions| ==> events[i] == Event(Handler, actions[i], headers)
  {
    if actions == [] then []
    else ByHandler(actions[..|actions| - 1], headers) + [Event(Handler, actions[|actions| - 1], headers)]
  }

  predicate NoDeadline(ops: seq<Op>) { forall i :: 0 <= i < |ops| ==> !ops[i].DeadlineOp? }

  lemma {:induction false} FirstCommitOfSnoc(ops: seq<Op>, op: Op)
    ensures var k := FirstCommit(ops);
      FirstCommit(ops + [op]) == if k < |ops| then k else if Commits(op) then |ops| else |ops| + 1
  {
    var longer := ops + [op];
    var k, l := FirstCommit(ops), FirstCommit(longer);
    assert longer[|ops|] == op && forall i :: 0 <= i < |ops| ==> longer[i] == ops[i];
    assert k < |ops| ==> Commits(longer[k]);
    assert l < |ops| ==> Commits(ops[l]);
  }

  /** One more call changes neither the earlier effects nor, once something is committed, the view. */
  lemma {:induction false} EffectsOfSnoc(ops: seq<Op>, op: Op, n: nat, canFlush: bool)
    requires n <= |ops|
    ensures Effects(ops + [op], n, canFlush) == Effects(ops, n, canFlush)
  {
    if n > 0 {
      EffectsOfSnoc(ops, op, n - 1, canFlush);
      FirstCommitOfSnoc(ops, op);
      assert (ops + [op])[n - 1] == ops[n - 1];
    }
  }

  lemma {:induction false} NothingBeforeCommit(ops: seq<Op>, n: nat, canFlush: bool)
    requires n <= FirstCommit(ops)
    ensures Effects(ops, n, canFlush) == []
  {
    if n > 0 { NothingBeforeCommit(ops, n - 1, canFlush); }
  }

  lemma ByHandlerSnoc(actions: seq<Action>, last: seq<Action>, headers: View)
    requires |last| <= 1
    ensures ByHandler(actions + last, headers) == ByHandler(actions, headers) + ByHandler(last, headers)
  {
  }

  /** What the shared state is after these calls, without a deadline. */
  predicate Says(entry: View, ops: seq<Op>, canFlush: bool, s: Shared) {
    && !s.timedOut && s.written == (FirstCommit(ops) < |ops|)
    && s.outer == CommittedView(entry, ops)
    && s.events == ByHandler(Effects(ops, |ops|, canFlush), CommittedView(entry, ops))
  }

  /** One call on the shared state. */
  lemma AppliedCall(entry: View, s: Shared, op: Op, canFlush: bool)
    requires !s.timedOut && !op.DeadlineOp? && (!s.written ==> s.outer == entry)
    ensures var t := Apply(s, op, canFlush);
      && !t.timedOut && t.written == (s.written || Commits(op))
      && t.outer == (if !s.written && Commits(op) then ViewOf(op, entry) else s.outer)
      && t.events == s.events + ByHandler(EffectOf(op, !s.written, canFlush), t.outer)
  {
    match op
    case WriteHeaderOp(code, _) => OneEvent(Head(code), Apply(s, op, canFlush).outer);
    case WriteOp(data, _) => OneEvent(Body(data), Apply(s, op, canFlush).outer);
    case FlushOp(_) => OneEvent(Flushed, Apply(s, op, canFlush).outer);
    case HijackOp(_) => OneEvent(Hijacked, Apply(s, op, canFlush).outer);
  }

  lemma OneEvent(action: Action, headers: View)
    ensures ByHandler([action], headers) == [Event(Handler, action, headers)]
    ensures ByHandler([], headers) == []
  {
  }

  lemma ViewOfSnoc(entry: View, ops: seq<Op>, op: Op)
    ensures CommittedView(entry, ops + [op]) ==
      if FirstCommit(ops) == |ops| && Commits(op) then ViewOf(op, entry) else CommittedView(entry, ops)
  {
    hide ViewOf, Commits;
    FirstCommitOfSnoc(ops, op);
    assert (ops + [op])[|ops|] == op;
    if FirstCommit(ops) < |ops| { assert (ops + [op])[FirstCommit(ops)] == ops[FirstCommit(ops)]; }
  }

  lemma EffectsOfLonger(ops: seq<Op>, op: Op, canFlush: bool)
    ensures Effects(ops + [op], |ops| + 1, canFlush)
         == Effects(ops, |ops|, canFlush) + EffectOf(op, FirstCommit(ops) == |ops|, canFlush)
  {
    hide EffectOf, FirstCommit, CallEffect;
    EffectsOfSnoc(ops, op, |ops|, canFlush);
    EffectOfNewCall(ops, op, canFlush, FirstCommit(ops) < |ops|);
  }

  lemma EventsGrow(before: seq<Action>, last: seq<Action>, view: View, view': View)
    requires |last| <= 1 && (before == [] || view' == view)
    ensures ByHandler(before + last, view') == ByHandler(before, view) + ByHandler(last, view')
  {
    ByHandlerSnoc(before, last, view');
    NoEvents(view);
    NoEvents(view');
  }

  lemma OneMoreCall(entry: View, ops: seq<Op>, op: Op, canFlush: bool, s: Shared)
    requires Says(entry, ops, canFlush, s) && !op.DeadlineOp?
    ensures Says(entry, ops + [op], canFlush, Apply(s, op, canFlush))
  {
    hide Apply, EffectOf, ViewOf, Commits, ByHandler, FirstCommit, Effects;
    assert !s.written ==> s.outer == entry;
    AppliedCall(entry, s, op, canFlush);
    FirstCommitOfSnoc(ops, op);
    ViewOfSnoc(entry, ops, op);
    hide CommittedView;
    if FirstCommit(ops) == |ops| { NothingBeforeCommit(ops, |ops|, canFlush); }
    EffectsOfLonger(ops, op, canFlush);
    EffectIsOne(op, !s.written, canFlush);
    EventsGrow(Effects(ops, |ops|, canFlush), EffectOf(op, !s.written, canFlush), CommittedView(entry, ops),
               CommittedView(entry, ops + [op]));
  }

  lemma NoEvents(headers: View)
    ensures ByHandler([], headers) == []
  {
  }

  lemma EffectIsOne(op: Op, first: bool, canFlush: bool)
    ensures |EffectOf(op, first, canFlush)| <= 1
  {
  }

  lemma EffectOfNewCall(ops: seq<Op>, op: Op, canFlush: bool, written: bool)
    requires written == (FirstCommit(ops) < |ops|)
    ensures CallEffect(ops + [op], |ops|, canFlush) == EffectOf(op, !written, canFlush)
  {
    FirstCommitOfSnoc(ops, op);
    assert (ops + [op])[|ops|] == op;
  }

  /**
    Without a deadline the trace is the handler's calls: the first WriteHeader with its own
    code if nothing was written before, every Write with its data, every flush and granted
    hijack, in order, all under the headers the handler had when it first committed.
   */
  lemma {:induction false} TraceIsTheCalls(entry: View, ops: seq<Op>, canFlush: bool)
    requires NoDeadline(ops)
    ensures Says(entry, ops, canFlush, Run(entry, ops, canFlush))
  {
    if ops != [] {
      var n := |ops| - 1;
      TraceIsTheCalls(entry, ops[..n], canFlush);
      assert ops[..n] + [ops[n]] == ops;
      OneMoreCall(entry, ops[..n], ops[n], canFlush, Run(entry, ops[..n], canFlush));
    }
  }

  /** With a deadline it is the calls before it, if one of them committed, and the 504 otherwise. */
  lemma TraceWithDeadline(entry: View, before: seq<Op>, after: seq<Op>, canFlush: bool)
    requires NoDeadline(before)
    ensures Run(entry, before + [DeadlineOp] + after, canFlush).events ==
      if FirstCommit(before) < |before|
      then ByHandler(Effects(before, |before|, canFlush), CommittedView(entry, before))
      else [Event(Timer, Head(504), entry["Content-Type" := ["application/json"]]),
            Event(Timer, Body(TIMEOUT_BODY), entry["Content-Type" := ["application/json"]])]
  {
    NothingAfterDeadline(entry, before, after, canFlush);
    TraceIsTheCalls(entry, before, canFlush);
    var start := before + [DeadlineOp];
    assert start[..|start| - 1] == before && start[|start| - 1] == DeadlineOp;
    assert Run(entry, start, canFlush) == Apply(Run(entry, before, canFlush), DeadlineOp, canFlush);
    if FirstCommit(before) == |before| { NothingBeforeCommit(before, |before|, canFlush); }
  }
}

/** The same protocol on the heap, where the two header maps must not share storage. */
module TimeoutWriters {
  import opened TimeoutProtocol

  /** http.Header: a map whose values are slices. */
  class HeaderMap {
    var fields: map<string, array<string>>

    ghost function Slices(): set<array<string>>
      reads this
    {
      set k | k in fields :: fields[k]
    }

    ghost function Contents(): View
      reads this, Slices()
    {
      map k | k in fields :: fields[k][..]
    }

    constructor ()
      ensures fields == map[]
    {
      fields := map[];
    }

    /** Header.Set */
    method Set(name: string, value: string)
      modifies this
      ensures Contents() == old(Contents())[name := [value]]
      ensures fresh(Slices() - old(Slices()))
    {
      var slice := new string[1](_ => value);
      assert slice[..] == [value];
      fields := fields[name := slice];
    }

    /** Header.Del */
    method Delete(name: string)
      modifies this
      ensures Contents() == old(Contents()) - {name}
      ensures Slices() <= old(Slices())
    {
      fields := fields - {name};
    }

    /** copyHeaders: clear, then append every value list to a nil slice. */
    method CopyFrom(source: HeaderMap)
      requires source != this
      modifies this
      ensures Contents() == source.Contents()
      ensures fresh(Slices())
    {
      fields := map[];
      var names := source.fields.Keys;
      while names != {}
        invariant names <= source.fields.Keys
        invariant fields.Keys == source.fields.Keys - names
        invariant forall k :: k in fields ==> fresh(fields[k]) && fields[k][..] == source.fields[k][..]
        decreases names
      {
        var name :| name in names;
        names := names - {name};
        var slice := CopySlice(source.fields[name]);
        fields := fields[name := slice];
      }
      assert fields.Keys == source.fields.Keys;
      assert Contents() == source.Contents();
    }

    /** Header.Clone */
    method Clone() returns (copy: HeaderMap)
      ensures fresh(copy) && fresh(copy.Slices())
      ensures copy.Contents() == Contents()
    {
      copy := new HeaderMap();
      copy.CopyFrom(this);
    }
  }

  method CopySlice(a: array<string>) returns (b: array<string>)
    ensures fresh(b) && b[..] == a[..]
  {
    b := new string[a.Length](i requires 0 <= i < a.Length reads a => a[i]);
  }

  /** The writer of the surrounding server. */
  class ResponseWriter {
    const header: HeaderMap
    const canFlush: bool
    var events: seq<Event>

    constructor (header: HeaderMap, canFlush: bool)
      ensures this.header == header && this.canFlush == canFlush && events == []
    {
      this.header, this.canFlush, events := header, canFlush, [];
    }

    method Emit(author: Party, action: Action)
      modifies this`events
      ensures events == old(events) + [Event(author, action, header.Contents())]
    {
      var view := ReadHeader();
      events := events + [Event(author, action, view)];
      assert view == header.Contents();
    }

    /** WriteJSON: content type, status, body. */
    method WriteJSON(status: int, body: string)
      modifies this`events, header
      ensures header.Contents() == old(header.Contents())["Content-Type" := ["application/json"]]
      ensures fresh(header.Slices() - old(header.Slices()))
      ensures events == old(events)
        + [Event(Timer, Head(status), header.Contents()), Event(Timer, Body(body), header.Contents())]
    {
      header.Set("Content-Type", "application/json");
      Emit(Timer, Head(status));
      Emit(Timer, Body(body));
    }

    method ReadHeader() returns (view: View)
      ensures view == header.Contents()
    {
      view := map k | k in header.fields :: header.fields[k][..];
    }
  }

  class TimeoutWriter {
    const under: ResponseWriter
    const header: HeaderMap
    var written: bool
    var timedOut: bool

    /** The handler's map shares neither the map nor a slice with the writer's map. */
    ghost predicate Valid()
      reads this, under, header, under.header
    {
      header != under.header && header.Slices() !! under.header.Slices()
    }

    /** The shared state of TimeoutProtocol. */
    ghost function Abstract(): Shared
      reads this, under, under.header, under.header.Slices()
    {
      Shared(under.header.Contents(), under.events, written, timedOut)
    }

    /** serveWithTimeout: the handler gets a clone of the writer's headers. */
    constructor (w: ResponseWriter)
      requires w.events == []
      ensures Valid() && under == w && fresh(header) && fresh(header.Slices())
      ensures header.Contents() == w.header.Contents()
      ensures Abstract() == Start(w.header.Contents())
    {
      var clone := w.header.Clone();
      under, header, written, timedOut := w, clone, false, false;
    }

    method CopyHeaders()
      requires Valid()
      modifies under.header
      ensures Valid() && fresh(under.header.Slices())
      ensures under.header.Contents() == header.Contents() == old(header.Contents())
    {
      under.header.CopyFrom(header);
    }

    method WriteHeader(code: int)
      requires Valid()
      modifies this, under, under.header
      ensures Valid() && header.Contents() == old(header.Contents())
      ensures Abstract() == Apply(old(Abstract()), WriteHeaderOp(code, old(header.Contents())), under.canFlush)
    {
      if !written && !timedOut {
        CopyHeaders();
        written := true;
        under.Emit(Handler, Head(code));
      }
    }

    method Write(data: string) returns (accepted: bool)
      requires Valid()
      modifies this, under, under.header
      ensures Valid() && header.Contents() == old(header.Contents())
      ensures accepted == !old(timedOut)
      ensures Abstract() == Apply(old(Abstract()), WriteOp(data, old(header.Contents())), under.canFlush)
    {
      if timedOut { return false; }
      if !written {
        CopyHeaders();
        written := true;
      }
      under.Emit(Handler, Body(data));
      return true;
    }

    method Flush()
      requires Valid()
      modifies this, under, under.header
      ensures Valid() && header.Contents() == old(header.Contents())
      ensures Abstract() == Apply(old(Abstract()), FlushOp(old(header.Contents())), under.canFlush)
    {
      if timedOut { return; }
      if !written {
        CopyHeaders();
        written := true;
      }
      if under.canFlush { under.Emit(Handler, Flushed); }
    }

    /** `granted` is what the underlying writer answers. */
    method Hijack(granted: bool) returns (ok: bool)
      requires Valid()
      modifies this, under
      ensures Valid() && header.Contents() == old(header.Contents())
      ensures ok == (granted && !old(timedOut))
      ensures Abstract() == Apply(old(Abstract()), HijackOp(granted), under.canFlush)
    {
      if timedOut || !granted { return false; }
      under.Emit(Handler, Hijacked);
      written := true;
      return true;
    }

    /** writeTimeoutResponse, run by the timer. */
    method WriteTimeoutResponse()
      requires Valid()
      modifies this, under, under.header
      ensures Valid() && header.Contents() == old(header.Contents())
      ensures Abstract() == Apply(old(Abstract()), DeadlineOp, under.canFlush)
    {
      timedOut := true;
      if written { return; }
      written := true;
      under.WriteJSON(504, TIMEOUT_BODY);
    }

    // Whatever the handler does to its own header map and its slices stays invisible to the writer.

    method SetOwnHeader(name: string, value: string)
      requires Valid()
      modifies header
      ensures header.Contents() == old(header.Contents())[name := [value]]
      ensures Valid() && Abstract() == old(Abstract())
    {
      header.Set(name, value);
    }

    method DeleteOwnHeader(name: string)
      requires Valid()
      modifies header
      ensures header.Contents() == old(header.Contents()) - {name}
      ensures Valid() && Abstract() == old(Abstract())
    {
      header.Delete(name);
    }

    method WriteOwnSlice(slice: array<string>, index: nat, value: string)
      requires Valid() && slice in header.Slices() && index < slice.Length
      modifies slice
      ensures slice[index] == value
      ensures Valid() && Abstract() == old(Abstract())
    {
      slice[index] := value;
    }
  }
}
