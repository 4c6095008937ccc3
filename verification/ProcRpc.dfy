/** The kernel's client of the federation child process and the child's request loop: one JSON line per
    request, one per reply, paired by position because nobody compares ids. */
module ProcRpc {
  import opened SsamTypes
  import opened Text

  // ----- messages -----

  datatype Request = Request(id: int, verb: string, params: Option<string>)

  datatype Response = Response(id: int, result: Option<string>, error: string)

  /** How messages become lines. A line never holds a line break. */
  datatype Codec = Codec(
    writeRequest: Request -> string, readRequest: string -> Option<Request>,
    writeResponse: Response -> string, readResponse: string -> Option<Response>)

  ghost predicate Lawful(c: Codec) {
    && (forall r :: TrimSpace(c.writeRequest(r)) == c.writeRequest(r) && c.writeRequest(r) != "")
    && (forall r :: c.readRequest(c.writeRequest(r)) == Some(r))
    && (forall r :: c.readResponse(c.writeResponse(r)) == Some(r))
  }

  // ----- the child -----

  /** What handling a request came to: a result, an error, or a result that has no JSON form. */
  datatype Outcome = Done(raw: string) | Failed(error: string) | Unencodable(error: string)

  type Handler<!S> = (S, string, Option<string>) -> (S, Outcome)

  const SHUTDOWN := "shutdown"

  datatype Turn<S> = Turn(state: S, reply: Option<Response>, stop: bool)

  /** One round of the child's loop on one line. */
  function Serve<S>(h: Handler<S>, c: Codec, s: S, line: string): Turn<S> {
    var text := TrimSpace(line);
    if text == "" then Turn(s, None, false)
    else match c.readRequest(text)
      case None => Turn(s, Some(Response(0, None, "parse")), false)
      case Some(req) =>
        var (next, outcome) := h(s, req.verb, req.params);
        match outcome
        case Done(raw) => Turn(next, Some(Response(req.id, Some(raw), "")), req.verb == SHUTDOWN)
        case Failed(e) => Turn(next, Some(Response(req.id, None, e)), false)
        case Unencodable(e) => Turn(next, Some(Response(req.id, None, "marshal: " + e)), false)
  }

  /** The child's state once it has served the lines. */
  function StateAfter<S>(h: Handler<S>, c: Codec, s: S, lines: seq<string>): S {
    if lines == [] then s
    else Serve(h, c, StateAfter(h, c, s, lines[..|lines| - 1]), lines[|lines| - 1]).state
  }

  function Answered(lines: seq<string>): seq<string> {
    if lines == [] then []
    else Answered(lines[..|lines| - 1]) + if Blank(lines[|lines| - 1]) then [] else [lines[|lines| - 1]]
  }

  ghost predicate Stops<S>(h: Handler<S>, c: Codec, s: S, lines: seq<string>, k: nat) {
    k < |lines| && Serve(h, c, StateAfter(h, c, s, lines[..k]), lines[k]).stop
  }

  /** The reply line tells the outcome of request `id`: the result itself, or the reason there is none. */
  ghost predicate Tells(c: Codec, line: string, id: int, outcome: Outcome) {
    match outcome
    case Done(raw) => c.readResponse(line) == Some(Response(id, Some(raw), ""))
    case Failed(e) => c.readResponse(line) == Some(Response(id, None, e))
    case Unencodable(e) => c.readResponse(line) == Some(Response(id, None, "marshal: " + e))
  }

  /** After whatever lines: the next request is handed to the handler, in the state they left; its state is the
      handler's, its one reply line tells the handler's outcome, and a shutdown that is done ends the loop. */
  lemma ChildAnswers<S>(h: Handler<S>, c: Codec, start: S, earlier: seq<string>, req: Request)
    requires Lawful(c)
    ensures var lines, before := earlier + [c.writeRequest(req)], StateAfter(h, c, start, earlier);
            var (next, outcome) := h(before, req.verb, req.params);
            && StateAfter(h, c, start, lines) == next
            && |Transcript(h, c, start, lines)| == |Transcript(h, c, start, earlier)| + 1
            && Transcript(h, c, start, earlier) <= Transcript(h, c, start, lines)
            && Tells(c, Transcript(h, c, start, lines)[|Transcript(h, c, start, earlier)|], req.id, outcome)
            && (Stops(h, c, start, lines, |earlier|) <==> outcome.Done? && req.verb == "shutdown")
  {
    var lines := earlier + [c.writeRequest(req)];
    assert lines[..|lines| - 1] == earlier && lines[..|earlier|] == earlier;
    hide TrimSpace;
  }

  /** A line that does not parse is answered under id 0 and changes nothing. */
  lemma ChildRefuses<S>(h: Handler<S>, c: Codec, start: S, earlier: seq<string>, line: string)
    requires Lawful(c) && TrimSpace(line) != "" && c.readRequest(TrimSpace(line)).None?
    ensures var lines := earlier + [line];
            && StateAfter(h, c, start, lines) == StateAfter(h, c, start, earlier)
            && Transcript(h, c, start, lines)
               == Transcript(h, c, start, earlier) + [c.writeResponse(Response(0, None, "parse"))]
            && !Stops(h, c, start, lines, |earlier|)
  {
    var lines := earlier + [line];
    assert lines[..|lines| - 1] == earlier && lines[..|earlier|] == earlier;
    hide TrimSpace;
  }

  lemma RequestAlone<S>(h: Handler<S>, c: Codec, start: S, lines: seq<string>, read: nat)
    requires read <= |lines| && (read == |lines| || read > 0)
    ensures forall req :: Lawful(c) && lines == [c.writeRequest(req)] ==>
              var (next, outcome) := h(start, req.verb, req.params);
              && read == 1 && StateAfter(h, c, start, lines[..read]) == next
              && |Transcript(h, c, start, lines[..read])| == 1
              && Tells(c, Transcript(h, c, start, lines[..read])[0], req.id, outcome)
  {
    forall req | Lawful(c) && lines == [c.writeRequest(req)]
      ensures var (next, outcome) := h(start, req.verb, req.params);
              && StateAfter(h, c, start, lines) == next && |Transcript(h, c, start, lines)| == 1
              && Tells(c, Transcript(h, c, start, lines)[0], req.id, outcome)
    {
      ChildAnswers(h, c, start, [], req);
      assert [] + [c.writeRequest(req)] == lines;
    }
    hide StateAfter, Transcript, Tells, Lawful;
    assert read == |lines| ==> lines[..read] == lines;
  }

  /** The child's loop: it reads until the input ends or a shutdown succeeds. */
  method RunChild<S>(h: Handler<S>, c: Codec, start: S, lines: seq<string>)
    returns (out: seq<string>, state: S, read: nat)
    ensures read <= |lines| && (forall k: nat :: k + 1 < read ==> !Stops(h, c, start, lines, k))
    ensures read == |lines| || (read > 0 && Stops(h, c, start, lines, read - 1))
    ensures state == StateAfter(h, c, start, lines[..read])
    ensures out == Transcript(h, c, start, lines[..read])
    ensures forall req :: Lawful(c) && lines == [c.writeRequest(req)] ==>
              var (next, outcome) := h(start, req.verb, req.params);
              read == 1 && state == next && |out| == 1 && Tells(c, out[0], req.id, outcome)
  {
    hide TrimSpace;
    out, state, read := [], start, 0;
    while read < |lines|
      invariant read <= |lines| && state == StateAfter(h, c, start, lines[..read])
                && out == Transcript(h, c, start, lines[..read])
      invariant forall k: nat :: k < read ==> !Stops(h, c, start, lines, k)
    {
      var line := TrimSpace(lines[read]);
      ghost var turn := Serve(h, c, state, lines[read]);
      assert lines[..read + 1][..read] == lines[..read];
      read := read + 1;
      if line == "" {
        continue;
      }
      match c.readRequest(line) {
        case None =>
          out := out + [c.writeResponse(Response(0, None, "parse"))];
          continue;
        case Some(req) =>
          var (next, outcome) := h(state, req.verb, req.params);
          state := next;
          match outcome {
            case Failed(e) =>
              out := out + [c.writeResponse(Response(req.id, None, e))];
              continue;
            case Unencodable(e) =>
              out := out + [c.writeResponse(Response(req.id, None, "marshal: " + e))];
              continue;
            case Done(raw) =>
              out := out + [c.writeResponse(Response(req.id, Some(raw), ""))];
              if req.verb == SHUTDOWN {
                break;
              }
          }
      }
    }
    hide Serve, StateAfter, Transcript, Stops;
    RequestAlone(h, c, start, lines, read);
  }

  /** The reply lines the child writes for the lines it serves. */
  function Transcript<S>(h: Handler<S>, c: Codec, s: S, lines: seq<string>): seq<string> {
    if lines == [] then []
    else
      var n := |lines| - 1;
      var turn := Serve(h, c, StateAfter(h, c, s, lines[..n]), lines[n]);
      Transcript(h, c, s, lines[..n]) + if turn.reply.Some? then [c.writeResponse(turn.reply.value)] else []
  }

  lemma AnswersUnlessBlank<S>(h: Handler<S>, c: Codec, s: S, line: string)
    ensures Serve(h, c, s, line).reply.None? <==> Blank(line)
    ensures Blank(line) ==> Serve(h, c, s, line) == Turn(s, None, false)
  {
    TrimSpaceBlank(line);
    hide TrimSpace, Blank;
  }

  lemma {:induction false} BlanksDoNothing<S>(h: Handler<S>, c: Codec, s: S, lines: seq<string>)
    ensures StateAfter(h, c, s, Answered(lines)) == StateAfter(h, c, s, lines)
  {
    hide Serve, Blank;
    if lines != [] {
      var n := |lines| - 1;
      BlanksDoNothing(h, c, s, lines[..n]);
      AnswersUnlessBlank(h, c, StateAfter(h, c, s, lines[..n]), lines[n]);
      assert !Blank(lines[n]) ==> Answered(lines)[..|Answered(lines)| - 1] == Answered(lines[..n]);
      assert Blank(lines[n]) ==> Answered(lines) == Answered(lines[..n]);
    }
  }

  /** The reply to the k-th line that is not blank, made in the state the lines before it left. */
  ghost function ReplyTo<S>(h: Handler<S>, c: Codec, s: S, asked: seq<string>, k: nat): Option<Response>
    requires k < |asked|
  {
    Serve(h, c, StateAfter(h, c, s, asked[..k]), asked[k]).reply
  }

  /** One reply per line that is not blank, in order, each made in the state the lines before it left. */
  lemma {:induction false} OneReplyPerLine<S>(h: Handler<S>, c: Codec, s: S, lines: seq<string>)
    ensures |Transcript(h, c, s, lines)| == |Answered(lines)|
    ensures forall k: nat :: k < |Answered(lines)| ==>
              ReplyTo(h, c, s, Answered(lines), k).Some? &&
              Transcript(h, c, s, lines)[k] == c.writeResponse(ReplyTo(h, c, s, Answered(lines), k).value)
  {
    hide Serve, Blank, StateAfter;
    if lines != [] {
      var n := |lines| - 1;
      var was, all := Answered(lines[..n]), Answered(lines);
      OneReplyPerLine(h, c, s, lines[..n]);
      BlanksDoNothing(h, c, s, lines[..n]);
      AnswersUnlessBlank(h, c, StateAfter(h, c, s, lines[..n]), lines[n]);
      forall k: nat | k < |was| ensures ReplyTo(h, c, s, all, k) == ReplyTo(h, c, s, was, k) {
        assert all[..k] == was[..k];
      }
      assert !Blank(lines[n]) ==> all[..|was|] == was && all[|was|] == lines[n];
    }
  }

  // ----- client and child together -----

  /** The request in flight and the unfinished text an earlier failed write left in front of it. */
  datatype Pending = Pending(request: Request, prefix: string)

  /** `torn` is unfinished text in the pipe to the child; `served` and `answered` record which lines the child
      has read and which the client has had the reply to. */
  datatype Link<S> = Link(
    running: bool, nextId: nat, waiting: Option<Pending>,
    torn: string, lines: seq<string>, replies: seq<string>, child: S, childUp: bool,
    served: seq<string>, answered: seq<string>)

  function Start<S>(s: S): Link<S> {
    Link(true, 0, None, "", [], [], s, true, [], [])
  }

  /** A write may fail having delivered any part of the line but its end; the child may die at any moment; the
      client may lose patience at any moment. */
  datatype Event =
    | Write(verb: string, params: Option<string>)
    | TornWrite(verb: string, params: Option<string>, kept: nat)
    | ChildServes
    | ChildDies
    | Read
    | TimeOut
    | ReadError
    | Reap

  function Line(c: Codec, p: Pending): string {
    p.prefix + c.writeRequest(p.request)
  }

  function NextRequest<S>(a: Link<S>, verb: string, params: Option<string>): Request {
    Request(a.nextId + 1, verb, params)
  }

  predicate Enabled<S>(c: Codec, a: Link<S>, e: Event) {
    match e
    case Write(_, _) => a.running && a.waiting.None?
    case TornWrite(verb, params, kept) => a.running && a.waiting.None?
        && kept <= |c.writeRequest(NextRequest(a, verb, params))|
    case ChildServes => a.childUp && a.lines != []
    case ChildDies => true
    case Read => a.running && a.waiting.Some? && a.replies != []
    case TimeOut => a.running && a.waiting.Some?
    case ReadError => a.running && a.waiting.Some? && !a.childUp && a.replies == []
    case Reap => a.running && a.waiting.None? && !a.childUp
  }

  function After<S>(h: Handler<S>, c: Codec, a: Link<S>, e: Event): Link<S>
    requires Enabled(c, a, e)
  {
    match e
    case Write(verb, params) =>
      var p := Pending(NextRequest(a, verb, params), a.torn);
      a.(nextId := a.nextId + 1, lines := a.lines + [Line(c, p)], torn := "", waiting := Some(p))
    case TornWrite(verb, params, kept) =>
      a.(nextId := a.nextId + 1, torn := a.torn + c.writeRequest(NextRequest(a, verb, params))[..kept])
    case ChildServes =>
      var turn := Serve(h, c, a.child, a.lines[0]);
      a.(lines := a.lines[1..], child := turn.state, childUp := !turn.stop, served := a.served + [a.lines[0]],
         replies := a.replies + if turn.reply.Some? then [c.writeResponse(turn.reply.value)] else [])
    case ChildDies => a.(childUp := false)
    case Read => a.(replies := a.replies[1..], waiting := None, answered := a.answered + [Line(c, a.waiting.value)])
    case TimeOut => a.(running := false, waiting := None, childUp := false)
    case ReadError => a.(running := false, waiting := None, childUp := false)
    case Reap => a.(running := false)
  }

  /** Where a run of events leads, if each is possible when it comes. */
  function Run<S>(h: Handler<S>, c: Codec, a: Link<S>, events: seq<Event>): Option<Link<S>> {
    if events == [] then Some(a)
    else
      match Run(h, c, a, events[..|events| - 1])
      case None => None
      case Some(b) => if Enabled(c, b, events[|events| - 1]) then Some(After(h, c, b, events[|events| - 1])) else None
  }

  /** The calls a run has tried to make. */
  function Tried(events: seq<Event>): nat {
    if events == [] then 0
    else
      var last := events[|events| - 1];
      Tried(events[..|events| - 1]) + if last.Write? || last.TornWrite? then 1 else 0
  }

  /** The n-th call tried carries the number n, so no two share one; the request in flight is the last one tried. */
  lemma {:induction false} RequestInFlight<S>(h: Handler<S>, c: Codec, start: S, events: seq<Event>)
    requires Run(h, c, Start(start), events).Some?
    ensures var a := Run(h, c, Start(start), events).value;
            && a.nextId == Tried(events)
            && (a.waiting.Some? ==>
                  exists i :: 0 <= i < |events| && events[i].Write? && Tried(events[..i]) + 1 == Tried(events)
                              && a.waiting.value.request == Request(Tried(events), events[i].verb, events[i].params))
  {
    hide Serve;
    if events != [] {
      var n := |events| - 1;
      RequestInFlight(h, c, start, events[..n]);
      var a, b := Run(h, c, Start(start), events[..n]).value, Run(h, c, Start(start), events).value;
      if a.waiting.Some? && b.waiting.Some? {
        var i :| 0 <= i < n && events[..n][i].Write? && Tried(events[..n][..i]) + 1 == Tried(events[..n])
                 && a.waiting.value.request == Request(Tried(events[..n]), events[i].verb, events[i].params);
        assert events[..n][..i] == events[..i];
      }
    }
  }

  /** The child's answer to the request in flight, made in the state the answered lines left. */
  ghost function Due<S>(h: Handler<S>, c: Codec, start: S, a: Link<S>): Turn<S>
    requires a.waiting.Some?
  {
    Serve(h, c, StateAfter(h, c, start, a.answered), Line(c, a.waiting.value))
  }

  /** While the client runs, the pipes are empty between calls, and during one hold either the request or its reply. */
  ghost predicate InSync<S>(h: Handler<S>, c: Codec, start: S, a: Link<S>) {
    && a.child == StateAfter(h, c, start, a.served)
    && (a.running ==>
          if a.waiting.None? then a.lines == [] && a.replies == [] && a.served == a.answered
          else
            || (a.lines == [Line(c, a.waiting.value)] && a.replies == [] && a.served == a.answered)
            || (&& a.lines == [] && a.served == a.answered + [Line(c, a.waiting.value)]
                && Due(h, c, start, a).reply.Some?
                && a.replies == [c.writeResponse(Due(h, c, start, a).reply.value)]))
    && (!a.running ==> a.waiting.None? && !a.childUp)
  }

  lemma NeverBlank(c: Codec, p: Pending)
    requires Lawful(c)
    ensures !Blank(Line(c, p))
  {
    var text := c.writeRequest(p.request);
    TrimSpaceBlank(text);
    hide TrimSpace;
    assert forall ch :: ch in text ==> ch in Line(c, p);
  }

  lemma ServedKeepsSync<S>(h: Handler<S>, c: Codec, start: S, a: Link<S>)
    requires Lawful(c) && InSync(h, c, start, a) && Enabled(c, a, ChildServes)
    ensures InSync(h, c, start, After(h, c, a, ChildServes))
  {
    var line := a.lines[0];
    assert (a.served + [line])[..|a.served|] == a.served;
    assert a.waiting.Some?;
    NeverBlank(c, a.waiting.value);
    AnswersUnlessBlank(h, c, a.child, line);
    hide Serve, Blank, Lawful;
  }

  lemma StepKeepsSync<S>(h: Handler<S>, c: Codec, start: S, a: Link<S>, e: Event)
    requires Lawful(c) && InSync(h, c, start, a) && Enabled(c, a, e)
    ensures InSync(h, c, start, After(h, c, a, e))
  {
    hide Serve, Blank, Lawful;
    if e.ChildServes? { ServedKeepsSync(h, c, start, a); }
  }

  lemma {:induction false} RunKeepsSync<S>(h: Handler<S>, c: Codec, start: S, events: seq<Event>)
    requires Lawful(c) && Run(h, c, Start(start), events).Some?
    ensures InSync(h, c, start, Run(h, c, Start(start), events).value)
  {
    if events != [] {
      var n := |events| - 1;
      RunKeepsSync(h, c, start, events[..n]);
      StepKeepsSync(h, c, start, Run(h, c, Start(start), events[..n]).value, events[n]);
    }
  }

  lemma ServeThenRead<S>(h: Handler<S>, c: Codec, start: S, a: Link<S>)
    requires Lawful(c) && InSync(h, c, start, a) && a.running && a.waiting.Some? && a.childUp && a.replies == []
    ensures Enabled(c, a, ChildServes) && Enabled(c, After(h, c, a, ChildServes), Read)
    ensures var turn, b := Serve(h, c, a.child, Line(c, a.waiting.value)), After(h, c, a, ChildServes);
            var d := After(h, c, b, Read);
            && turn.reply.Some? && b.replies == [c.writeResponse(turn.reply.value)]
            && d.running && d.waiting.None? && d.nextId == a.nextId && d.torn == a.torn
            && d.child == turn.state && d.childUp == !turn.stop
            && d.answered == a.answered + [Line(c, a.waiting.value)]
  {
    hide Serve, Lawful, StateAfter, Blank, Due;
    ServedKeepsSync(h, c, start, a);
  }

  lemma ReplyDueMatches<S>(h: Handler<S>, c: Codec, start: S, a: Link<S>)
    requires Lawful(c) && InSync(h, c, start, a) && Enabled(c, a, Read)
    ensures var due := Due(h, c, start, a).reply;
            && due.Some? && a.replies == [c.writeResponse(due.value)] && c.readResponse(a.replies[0]) == due
            && (a.waiting.value.prefix == "" ==> due.value.id == a.waiting.value.request.id)
  {
    hide Serve, StateAfter, Blank;
    var p := a.waiting.value;
    var due := Due(h, c, start, a).reply;
    assert a.replies == [c.writeResponse(due.value)];
    assert c.readResponse(c.writeResponse(due.value)) == Some(due.value);
    if p.prefix == "" {
      assert Line(c, p) == c.writeRequest(p.request);
      ServedId(h, c, StateAfter(h, c, start, a.answered), p.request);
    }
  }

  /** An unspoilt request is answered under its own id. */
  lemma ServedId<S>(h: Handler<S>, c: Codec, s: S, req: Request)
    requires Lawful(c)
    ensures var r := Serve(h, c, s, c.writeRequest(req)).reply;
            r.Some? && r.value.id == req.id
  {
  }

  /** In every run, the reply the client is about to decode is the child's reply to the request it is waiting for,
      made after exactly the requests answered before it; and unless a failed write was stuck in front, the
      reply carries the request's id, though neither side checks. */
  lemma ReplyMatchesRequest<S>(h: Handler<S>, c: Codec, start: S, events: seq<Event>)
    requires Lawful(c) && Run(h, c, Start(start), events).Some?
    requires Enabled(c, Run(h, c, Start(start), events).value, Read)
    ensures var a := Run(h, c, Start(start), events).value;
            var due := Due(h, c, start, a).reply;
            && due.Some? && a.replies == [c.writeResponse(due.value)] && c.readResponse(a.replies[0]) == due
            && (a.waiting.value.prefix == "" ==> due.value.id == a.waiting.value.request.id)
  {
    RunKeepsSync(h, c, start, events);
    var a := Run(h, c, Start(start), events).value;
    hide Run;
    ReplyDueMatches(h, c, start, a);
  }

  lemma {:induction false} NothingStuck<S>(h: Handler<S>, c: Codec, start: S, events: seq<Event>)
    requires Run(h, c, Start(start), events).Some?
    requires forall e :: e in events && e.TornWrite? ==> e.kept == 0
    ensures var a := Run(h, c, Start(start), events).value;
            a.torn == "" && (a.waiting.Some? ==> a.waiting.value.prefix == "")
  {
    hide Serve;
    if events != [] {
      var n := |events| - 1;
      NothingStuck(h, c, start, events[..n]);
      assert events[n] in events;
    }
  }

  /** When a failed write delivers nothing at all, every reply the client reads answers the very request it sent. */
  lemma IdsAgreeWhenWritesAreWhole<S>(h: Handler<S>, c: Codec, start: S, events: seq<Event>)
    requires Lawful(c) && Run(h, c, Start(start), events).Some?
    requires forall e :: e in events && e.TornWrite? ==> e.kept == 0
    requires Enabled(c, Run(h, c, Start(start), events).value, Read)
    ensures var a := Run(h, c, Start(start), events).value;
            var req := a.waiting.value.request;
            var reply := c.readResponse(a.replies[0]);
            && reply.Some? && reply.value.id == req.id
            && reply == Serve(h, c, StateAfter(h, c, start, a.answered), c.writeRequest(req)).reply
  {
    NothingStuck(h, c, start, events);
    ReplyMatchesRequest(h, c, start, events);
    var req := Run(h, c, Start(start), events).value.waiting.value.request;
    assert "" + c.writeRequest(req) == c.writeRequest(req);
  }

  /** The child has acted on a request exactly when its reply was read, as long as the client is idle and running. */
  lemma NothingRunsUnanswered<S>(h: Handler<S>, c: Codec, start: S, events: seq<Event>)
    requires Lawful(c) && Run(h, c, Start(start), events).Some?
    ensures var a := Run(h, c, Start(start), events).value;
            a.running && a.waiting.None? ==> a.served == a.answered && a.child == StateAfter(h, c, start, a.answered)
  {
    RunKeepsSync(h, c, start, events);
  }

  /** A client that has given up stays that way: nothing is written, read or acted on any more. */
  lemma {:induction false} GivenUpForGood<S>(h: Handler<S>, c: Codec, start: S, before: seq<Event>, later: seq<Event>)
    requires Lawful(c) && Run(h, c, Start(start), before).Some? && !Run(h, c, Start(start), before).value.running
    requires Run(h, c, Start(start), before + later).Some?
    ensures Run(h, c, Start(start), before + later) == Run(h, c, Start(start), before)
  {
    RunKeepsSync(h, c, start, before);
    if later == [] {
      assert before + later == before;
    } else {
      var n := |later| - 1;
      assert (before + later)[..|before + later| - 1] == before + later[..n];
      GivenUpForGood(h, c, start, before, later[..n]);
      hide Serve;
    }
  }

  // ----- the client object -----

  datatype CallResult =
    | NotRunning | WriteFailed | TimedOut | ReadFailed | BadResponse | BadResult
    | ChildError(error: string) | Success(result: Option<string>)

  /** What befalls one call: `works` says whether the child still serves the request before time runs out. */
  datatype Fate = WriteFails(kept: nat) | Hangs(works: bool) | Breaks | Replies

  function Interpret(c: Codec, line: string, accepts: string -> bool): CallResult {
    match c.readResponse(line)
    case None => BadResponse
    case Some(resp) =>
      if resp.error != "" then ChildError(resp.error)
      else if resp.result.Some? && |resp.result.value| > 0 && !accepts(resp.result.value) then BadResult
      else Success(resp.result)
  }

  /** What the client makes of the child's answer to an unspoilt request. */
  lemma AnswerInterpreted<S>(h: Handler<S>, c: Codec, s: S, req: Request, accepts: string -> bool)
    requires Lawful(c)
    ensures var turn := Serve(h, c, s, c.writeRequest(req));
            var (next, outcome) := h(s, req.verb, req.params);
            && turn.reply.Some? && turn.state == next && (turn.stop <==> outcome.Done? && req.verb == SHUTDOWN)
            && var r := Interpret(c, c.writeResponse(turn.reply.value), accepts);
               match outcome
               case Done(raw) => r == if raw == "" || accepts(raw) then Success(Some(raw)) else BadResult
               case Failed(e) => r == if e != "" then ChildError(e) else Success(None)
               case Unencodable(e) => r == ChildError("marshal: " + e)
  {
    hide TrimSpace;
  }

  class ProcClient<S(!new)> {
    const handler: Handler<S>
    const codec: Codec
    ghost const start: S
    var link: Link<S>
    ghost var events: seq<Event>

    ghost predicate Valid()
      reads this
    {
      Lawful(codec) && Run(handler, codec, Start(start), events) == Some(link) && link.waiting.None?
    }

    constructor (handler: Handler<S>, codec: Codec, start: S)
      requires Lawful(codec)
      ensures Valid() && link == Start(start) && this.handler == handler && this.codec == codec && this.start == start
      ensures link.running && link.childUp && link.nextId == 0
    {
      this.handler, this.codec, this.start, link, events := handler, codec, start, Start(start), [];
    }

    /** One step of the run. */
    method Step(e: Event)
      requires Run(handler, codec, Start(start), events) == Some(link) && Enabled(codec, link, e)
      modifies this
      ensures link == After(handler, codec, old(link), e) && events == old(events) + [e]
      ensures Run(handler, codec, Start(start), events) == Some(link)
    {
      hide After, Enabled;
      ghost var was := events;
      link := After(handler, codec, link, e);
      events := events + [e];
      assert events[..|events| - 1] == was;
    }

    /** One call: writes the request, waits for a line, decodes it. A timeout or a failed read ends the client. */
    method Call(verb: string, params: Option<string>, accepts: string -> bool, fate: Fate) returns (r: CallResult)
      requires Valid()
      requires fate.WriteFails? ==> fate.kept <= |codec.writeRequest(NextRequest(link, verb, params))|
      requires fate.Replies? ==> link.childUp
      modifies this
      ensures Valid() && old(events) <= events
      ensures !old(link).running ==> r == NotRunning && link == old(link)
      ensures old(link).running ==> link.nextId == old(link).nextId + 1
      ensures link.running <==> old(link).running && (fate.WriteFails? || fate.Replies?)
      ensures old(link).running && fate.WriteFails? ==>
                && r == WriteFailed && link.child == old(link).child && link.childUp == old(link).childUp
                && link.torn == old(link).torn + codec.writeRequest(NextRequest(old(link), verb, params))[..fate.kept]
      ensures old(link).running && fate.Hangs? ==> r == TimedOut
      ensures old(link).running && fate.Breaks? ==> r == ReadFailed && link.child == old(link).child
      ensures old(link).running && fate.Replies? ==>
                var line := old(link).torn + codec.writeRequest(NextRequest(old(link), verb, params));
                var turn := Serve(handler, codec, old(link).child, line);
                && turn.reply.Some? && r == Interpret(codec, codec.writeResponse(turn.reply.value), accepts)
                && link.child == turn.state && link.torn == "" && link.answered == old(link).answered + [line]
      ensures old(link).running && fate.Replies? && old(link).torn == "" ==>
                var (next, outcome) := handler(old(link).child, verb, params);
                && link.child == next && (link.childUp <==> !(outcome.Done? && verb == SHUTDOWN))
                && match outcome
                   case Done(raw) => r == if raw == "" || accepts(raw) then Success(Some(raw)) else BadResult
                   case Failed(e) => r == if e != "" then ChildError(e) else Success(None)
                   case Unencodable(e) => r == ChildError("marshal: " + e)
    {
      ghost var was := link;
      hide Serve, Blank, Lawful, Run, Interpret;
      RunKeepsSync(handler, codec, start, events);
      if !link.running {
        return NotRunning;
      }
      match fate {
        case WriteFails(kept) =>
          Step(TornWrite(verb, params, kept));
          return WriteFailed;
        case _ =>
      }
      Step(Write(verb, params));
      match fate {
        case Hangs(works) =>
          if works && link.childUp {
            Step(ChildServes);
          }
          Step(TimeOut);
          return TimedOut;
        case Breaks =>
          Step(ChildDies);
          Step(ReadError);
          return ReadFailed;
        case _ =>
      }
      r := Await(accepts);
      if was.torn == "" {
        assert "" + codec.writeRequest(NextRequest(was, verb, params))
          == codec.writeRequest(NextRequest(was, verb, params));
        AnswerInterpreted(handler, codec, was.child, NextRequest(was, verb, params), accepts);
      }
    }

    /** Asks the child to shut down and, unless the call has killed it, waits for it to end. `waited` tells that this
        wait is for something else to end it: the request could not be written to a child that is up, or the child
        answered it with an error. */
    method Close(fate: Fate) returns (ghost waited: bool)
      requires Valid()
      requires fate.WriteFails? ==> fate.kept <= |codec.writeRequest(NextRequest(link, SHUTDOWN, None))|
      requires fate.Replies? ==> link.childUp
      modifies this
      ensures Valid() && !link.running && !link.childUp && old(events) <= events
      ensures !old(link).running || fate.Hangs? || fate.Breaks? ==> !waited
      ensures old(link).running && fate.WriteFails? ==> waited == old(link).childUp
      ensures old(link).running && fate.Replies? && old(link).torn == "" ==>
                (waited <==> !handler(old(link).child, SHUTDOWN, None).1.Done?)
    {
      hide Serve, Blank, Lawful, Run, Interpret;
      RunKeepsSync(handler, codec, start, events);
      var _ := Call(SHUTDOWN, None, _ => true, fate);
      waited := link.running && link.childUp;
      if link.running {
        Step(ChildDies);
        Step(Reap);
      } else {
        RunKeepsSync(handler, codec, start, events);
      }
    }

    /** The part of a call that waits for the reply and decodes it. */
    method Await(accepts: string -> bool) returns (r: CallResult)
      requires Lawful(codec) && Run(handler, codec, Start(start), events) == Some(link)
      requires link.running && link.waiting.Some? && link.childUp && link.replies == []
      modifies this
      ensures Valid() && old(events) <= events && link.running && link.nextId == old(link).nextId
              && link.torn == old(link).torn
      ensures var turn := Serve(handler, codec, old(link).child, Line(codec, old(link).waiting.value));
              && turn.reply.Some? && r == Interpret(codec, codec.writeResponse(turn.reply.value), accepts)
              && link.child == turn.state && link.childUp == !turn.stop
      ensures link.answered == old(link).answered + [Line(codec, old(link).waiting.value)]
    {
      RunKeepsSync(handler, codec, start, events);
      ServeThenRead(handler, codec, start, link);
      hide Serve, Lawful, Run, Interpret, After, Enabled, InSync, Line;
      Step(ChildServes);
      var line := link.replies[0];
      Step(Read);
      r := Interpret(codec, line, accepts);
    }
  }
}
