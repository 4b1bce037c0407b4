// src/adapters/control/client.ts: requests over a control socket, matched to their
// responses by id, with timeouts, write failures, disconnects and reconnects.
module ControlClient {
  import opened Basics
  import opened LineDecoder

  datatype ServerMessage =
    | Response(id: int, ok: bool, body: string)
    | Event(name: string)

  // How the promise of one accepted request ends.
  datatype How = Resolved(data: string) | Rejected(error: string)
  datatype Settlement = Settlement(id: int, how: How)

  // A reconnect waits for its timer or for its connection.
  datatype Retry = NoRetry | Timer | Connecting

  // settled lists the promises that have been resolved or rejected, in order.
  datatype State = State(
    connected: bool, nextId: int, pending: set<int>, buf: string, closing: bool, retry: Retry,
    listening: bool,      // whether somebody listens to error events
    settled: seq<Settlement>)

  datatype Step =
    | Request(writeThrows: bool)
    | TimerFires(id: int)
    | WriteFails(id: int)
    | Data(chunk: string)
    | SocketCloses
    | SocketOpens         // a connection asked for by connect
    | AttemptFires        // the reconnect timer
    | AttemptFails
    | Reconnects
    | Listen(on: bool)
    | Close

  const INITIAL := State(false, 1, {}, "", false, NoRetry, false, [])

  function HowOf(m: ServerMessage): How
    requires m.Response?
  {
    if m.ok then Resolved(m.body) else Rejected(m.body)
  }

  // Settle one request, if it is still pending.
  function SettleOne(s: State, id: int, how: How): State {
    if id in s.pending then s.(pending := s.pending - {id}, settled := s.settled + [Settlement(id, how)]) else s
  }

  function Deliver(s: State, m: ServerMessage): State {
    match m
    case Response(id, _, _) => SettleOne(s, id, HowOf(m))
    case Event(_) => s
  }

  function DeliverAll(s: State, ms: seq<ServerMessage>): State
    decreases |ms|
  {
    if ms == [] then s else DeliverAll(Deliver(s, ms[0]), ms[1..])
  }

  // Emitting an error event that nobody listens to throws.
  predicate Throws(listening: bool, m: ServerMessage) {
    m.Event? && m.name == "error" && !listening
  }

  // The messages of a chunk that are handled: those before the first that throws.
  function Heard(listening: bool, ms: seq<ServerMessage>): seq<ServerMessage> {
    if ms == [] || Throws(listening, ms[0]) then [] else [ms[0]] + Heard(listening, ms[1..])
  }

  // Reject the pending requests with ids from `from` on, in the order they were made.
  function Drain(pending: set<int>, from: int, until: int): seq<Settlement>
    decreases until - from
  {
    if from >= until then []
    else
      (if from in pending then [Settlement(from, Rejected("disconnected"))] else [])
      + Drain(pending, from + 1, until)
  }

  type Parse = string -> Option<ServerMessage>

  function Received(parse: Parse, s: State, chunk: string): State {
    DeliverAll(s.(buf := Tail(s.buf + chunk)), HeardIn(parse, s, chunk))
  }

  function Decoded(parse: Parse, buf: string, chunk: string): seq<ServerMessage> {
    DecodeLines(parse, CompleteLines(buf + chunk))
  }

  function HeardIn(parse: Parse, s: State, chunk: string): seq<ServerMessage> {
    Heard(s.listening, Decoded(parse, s.buf, chunk))
  }

  function Accepted(s: State, writeThrows: bool): State {
    if !s.connected then s
    else
      var sent := s.(nextId := s.nextId + 1, pending := s.pending + {s.nextId});
      if writeThrows then SettleOne(sent, s.nextId, Rejected("control request write failed")) else sent
  }

  function Closed(s: State): State {
    s.(connected := false, pending := {}, settled := s.settled + Drain(s.pending, 1, s.nextId),
       retry := if s.closing then s.retry else Timer)
  }

  function Next(parse: Parse, s: State, step: Step): State {
    match step
    case Request(writeThrows) => Accepted(s, writeThrows)
    case TimerFires(id) => SettleOne(s, id, Rejected("control request timed out"))
    case WriteFails(id) => SettleOne(s, id, Rejected("control request write failed"))
    case Data(chunk) => Received(parse, s, chunk)
    case SocketCloses => Closed(s)
    case SocketOpens => s.(connected := true)
    case AttemptFires => if s.retry.Timer? then s.(retry := if s.closing then NoRetry else Connecting) else s
    case AttemptFails => if s.retry.Connecting? then s.(retry := Timer) else s
    case Reconnects => if s.retry.Connecting? then s.(connected := true, buf := "", retry := NoRetry) else s
    case Listen(on) => s.(listening := on)
    case Close => s.(closing := true)
  }

  function Run(parse: Parse, s: State, steps: seq<Step>): State {
    if steps == [] then s else Next(parse, Run(parse, s, steps[..|steps| - 1]), steps[|steps| - 1])
  }

  // ---- Every accepted request is pending or settled, once ------------------------------

  function SettledIds(settled: seq<Settlement>): set<int> {
    set x | x in settled :: x.id
  }

  ghost predicate SettledOnce(settled: seq<Settlement>) {
    forall i, j :: 0 <= i < j < |settled| ==> settled[i].id != settled[j].id
  }

  // The ids handed out so far are 1 .. nextId - 1: the pending ones and the settled
  // ones, never both, and no id is settled twice.
  ghost predicate Inv(s: State) {
    && 1 <= s.nextId
    && (forall id :: 1 <= id < s.nextId <==> id in s.pending || id in SettledIds(s.settled))
    && s.pending !! SettledIds(s.settled)
    && SettledOnce(s.settled)
  }

  lemma SettledIdsGrow(settled: seq<Settlement>, x: Settlement)
    ensures SettledIds(settled + [x]) == SettledIds(settled) + {x.id}
  {
    assert (settled + [x])[|settled|] == x;
    forall id | id in SettledIds(settled) + {x.id} ensures id in SettledIds(settled + [x]) {
      if id in SettledIds(settled) {
        var y :| y in settled && y.id == id;
        assert y in settled + [x];
      } else {
        assert x in settled + [x];
      }
    }
  }

  lemma SettleOneKeepsInv(s: State, id: int, how: How)
    requires Inv(s)
    ensures Inv(SettleOne(s, id, how))
  {
    if id in s.pending {
      SettledIdsGrow(s.settled, Settlement(id, how));
      forall i | 0 <= i < |s.settled| ensures s.settled[i].id != id {
        assert s.settled[i] in s.settled;
      }
    }
  }

  // Delivering messages settles exactly the pending ids they answer, each with the first
  // answer that carries it, and touches nothing else.
  lemma {:induction false} DeliverAllKeepsInv(s: State, ms: seq<ServerMessage>)
    requires Inv(s)
    ensures Inv(DeliverAll(s, ms))
    decreases |ms|
  {
    if ms != [] {
      if ms[0].Response? { SettleOneKeepsInv(s, ms[0].id, HowOf(ms[0])); }
      DeliverAllKeepsInv(Deliver(s, ms[0]), ms[1..]);
    }
  }

  lemma SettledIdsHave(settled: seq<Settlement>, i: nat)
    requires i < |settled|
    ensures settled[i].id in SettledIds(settled)
  {
    assert settled[i] in settled;
  }

  lemma SettledIdOfOne(x: Settlement)
    ensures SettledIds([x]) == {x.id}
  {
    assert [x][0] == x;
  }

  lemma {:induction false} DrainIds(pending: set<int>, from: int, until: int)
    requires from <= until
    ensures forall id :: id in SettledIds(Drain(pending, from, until)) <==> from <= id < until && id in pending
    ensures SettledOnce(Drain(pending, from, until))
    ensures forall x :: x in Drain(pending, from, until) ==> x.how == Rejected("disconnected")
    decreases until - from
  {
    if from >= until {
      assert SettledIds([]) == {};
    } else {
      hide SettledIds;
      DrainIds(pending, from + 1, until);
      var rest := Drain(pending, from + 1, until);
      forall i | 0 <= i < |rest| ensures from < rest[i].id {
        SettledIdsHave(rest, i);
      }
      if from in pending {
        var x := Settlement(from, Rejected("disconnected"));
        SettledIdsJoin([x], rest);
        SettledIdOfOne(x);
        assert Drain(pending, from, until) == [x] + rest;
      } else {
        assert Drain(pending, from, until) == rest;
      }
    }
  }

  lemma SettledIdsJoin(a: seq<Settlement>, b: seq<Settlement>)
    ensures SettledIds(a + b) == SettledIds(a) + SettledIds(b)
  {
    forall id | id in SettledIds(a) + SettledIds(b) ensures id in SettledIds(a + b) {
      if id in SettledIds(a) {
        var x :| x in a && x.id == id;
        assert x in a + b;
      } else {
        var x :| x in b && x.id == id;
        assert x in a + b;
      }
    }
  }

  lemma ClosedKeepsInv(s: State)
    requires Inv(s)
    ensures Inv(Closed(s))
    ensures Closed(s).pending == {} && s.settled <= Closed(s).settled
    ensures forall id :: id in s.pending ==> Settlement(id, Rejected("disconnected")) in Closed(s).settled
  {
    var drained := Drain(s.pending, 1, s.nextId);
    DrainIds(s.pending, 1, s.nextId);
    SettledIdsJoin(s.settled, drained);
    forall i, j | 0 <= i < |s.settled| && 0 <= j < |drained| ensures s.settled[i].id != drained[j].id {
      assert s.settled[i].id in SettledIds(s.settled) && drained[j].id in SettledIds(drained);
    }
    assert forall id :: id in SettledIds(drained) <==> id in s.pending;
    forall id | id in s.pending ensures Settlement(id, Rejected("disconnected")) in Closed(s).settled {
      assert id in SettledIds(drained);
      var x :| x in drained && x.id == id;
      assert x in s.settled + drained;
    }
  }

  lemma StepKeepsInv(parse: Parse, s: State, step: Step)
    requires Inv(s)
    ensures Inv(Next(parse, s, step))
  {
    match step
    case Request(writeThrows) =>
      if s.connected && writeThrows {
        SettleOneKeepsInv(s.(nextId := s.nextId + 1, pending := s.pending + {s.nextId}), s.nextId,
                          Rejected("control request write failed"));
      }
    case TimerFires(id) => SettleOneKeepsInv(s, id, Rejected("control request timed out"));
    case WriteFails(id) => SettleOneKeepsInv(s, id, Rejected("control request write failed"));
    case Data(chunk) =>
      DeliverAllKeepsInv(s.(buf := Tail(s.buf + chunk)), HeardIn(parse, s, chunk));
    case SocketCloses => ClosedKeepsInv(s);
    case SocketOpens =>
    case AttemptFires =>
    case AttemptFails =>
    case Reconnects =>
    case Listen(_) =>
    case Close =>
  }

  // Main result: in every run of requests, responses, timeouts, write failures,
  // disconnects and reconnects, the accepted ids are the disjoint union of the pending
  // and the settled ones, and each is settled at most once.
  lemma {:induction false} RequestsPendOrSettleOnce(parse: Parse, steps: seq<Step>)
    ensures Inv(Run(parse, INITIAL, steps))
  {
    if steps == [] {
      assert SettledIds([]) == {};
    } else {
      RequestsPendOrSettleOnce(parse, steps[..|steps| - 1]);
      StepKeepsInv(parse, Run(parse, INITIAL, steps[..|steps| - 1]), steps[|steps| - 1]);
    }
  }

  // ---- What is settled stays settled; ids are never reused ------------------------------

  lemma {:induction false} DeliverAllOnlySettles(s: State, ms: seq<ServerMessage>)
    ensures s.settled <= DeliverAll(s, ms).settled
    ensures DeliverAll(s, ms) == s.(pending := DeliverAll(s, ms).pending, settled := DeliverAll(s, ms).settled)
    decreases |ms|
  {
    if ms != [] { DeliverAllOnlySettles(Deliver(s, ms[0]), ms[1..]); }
  }

  lemma {:induction false} HistoryOnlyGrows(parse: Parse, s: State, steps: seq<Step>)
    ensures s.settled <= Run(parse, s, steps).settled
    ensures s.nextId <= Run(parse, s, steps).nextId
  {
    if steps != [] {
      var n := |steps| - 1;
      var before := Run(parse, s, steps[..n]);
      HistoryOnlyGrows(parse, s, steps[..n]);
      if steps[n].Data? {
        var chunk := steps[n].chunk;
        DeliverAllOnlySettles(before.(buf := Tail(before.buf + chunk)), HeardIn(parse, before, chunk));
      }
      assert before.settled <= Run(parse, s, steps).settled;
    }
  }

  // A request accepted after any history gets an id that nothing in that history used.
  lemma FreshIds(parse: Parse, steps: seq<Step>)
    ensures
      var s := Run(parse, INITIAL, steps);
      s.nextId !in s.pending && s.nextId !in SettledIds(s.settled)
  {
    RequestsPendOrSettleOnce(parse, steps);
  }

  // ---- A response settles only the request that carries its id --------------------------

  // The first response in the messages that carries the id.
  function AnswerTo(ms: seq<ServerMessage>, id: int): Option<How> {
    if ms == [] then None
    else if ms[0].Response? && ms[0].id == id then Some(HowOf(ms[0]))
    else AnswerTo(ms[1..], id)
  }

  lemma {:induction false} DeliveredAnswers(s: State, ms: seq<ServerMessage>, id: int)
    requires Inv(s) && id in s.pending
    ensures
      var after := DeliverAll(s, ms);
      match AnswerTo(ms, id)
      case None => id in after.pending
      case Some(how) => id !in after.pending && Settlement(id, how) in after.settled
    decreases |ms|
  {
    if ms != [] {
      var mid := Deliver(s, ms[0]);
      if ms[0].Response? { SettleOneKeepsInv(s, ms[0].id, HowOf(ms[0])); }
      if ms[0].Response? && ms[0].id == id {
        var x := Settlement(id, HowOf(ms[0]));
        assert mid.settled[|s.settled|] == x;
        DeliverAllOnlySettles(mid, ms[1..]);
        assert DeliverAll(mid, ms[1..]).settled[|s.settled|] == x;
        DeliverAllKeepsInv(mid, ms[1..]);
        assert id in SettledIds(DeliverAll(mid, ms[1..]).settled);
      } else {
        DeliveredAnswers(mid, ms[1..], id);
      }
    }
  }

  // Messages never settle a request they do not answer, and never a second time.
  lemma {:induction false} DeliveredOnly(s: State, ms: seq<ServerMessage>, k: nat)
    requires |s.settled| <= k < |DeliverAll(s, ms).settled|
    ensures
      var x := DeliverAll(s, ms).settled[k];
      x.id in s.pending && AnswerTo(ms, x.id) == Some(x.how)
    decreases |ms|
  {
    if ms != [] {
      var mid := Deliver(s, ms[0]);
      DeliverAllOnlySettles(mid, ms[1..]);
      if k < |mid.settled| {
        assert DeliverAll(s, ms).settled[k] == mid.settled[k];
      } else {
        DeliveredOnly(mid, ms[1..], k);
      }
    }
  }

  // Main result: a chunk settles a pending request with the first response of its handled
  // messages that carries the id, and leaves it pending without one.
  lemma AnswersReachTheirRequests(parse: Parse, s: State, chunk: string, id: int)
    requires Inv(s) && id in s.pending
    ensures
      var after := Received(parse, s, chunk);
      match AnswerTo(HeardIn(parse, s, chunk), id)
      case None => id in after.pending
      case Some(how) => id !in after.pending && Settlement(id, how) in after.settled
  {
    DeliveredAnswers(s.(buf := Tail(s.buf + chunk)), HeardIn(parse, s, chunk), id);
  }

  // The first response of the messages that carries the id is the k-th.
  ghost predicate AnsweredAt(ms: seq<ServerMessage>, id: int, k: nat) {
    && k < |ms| && ms[k].Response? && ms[k].id == id
    && forall j :: 0 <= j < k ==> !(ms[j].Response? && ms[j].id == id)
  }

  lemma {:induction false} AnswerIsFirst(ms: seq<ServerMessage>, id: int, k: nat)
    requires AnsweredAt(ms, id, k)
    ensures AnswerTo(ms, id) == Some(if ms[k].ok then Resolved(ms[k].body) else Rejected(ms[k].body))
  {
    if k > 0 {
      assert AnsweredAt(ms[1..], id, k - 1);
      AnswerIsFirst(ms[1..], id, k - 1);
    }
  }

  // An ok response resolves its request with its body, any other rejects it with its body.
  lemma AnswersSettleTheirRequests(parse: Parse, s: State, chunk: string, id: int, k: nat)
    requires Inv(s) && id in s.pending && AnsweredAt(HeardIn(parse, s, chunk), id, k)
    ensures
      var m, after := HeardIn(parse, s, chunk)[k], Received(parse, s, chunk);
      && id !in after.pending
      && (m.ok ==> Settlement(id, Resolved(m.body)) in after.settled)
      && (!m.ok ==> Settlement(id, Rejected(m.body)) in after.settled)
  {
    AnswerIsFirst(HeardIn(parse, s, chunk), id, k);
    AnswersReachTheirRequests(parse, s, chunk, id);
  }

  // A request that times out or whose write fails is rejected, if it is still pending; one
  // that is not is left alone.
  lemma FailuresReject(parse: Parse, s: State, id: int)
    ensures id in s.pending ==>
              && Next(parse, s, TimerFires(id))
                 == s.(pending := s.pending - {id},
                       settled := s.settled + [Settlement(id, Rejected("control request timed out"))])
              && Next(parse, s, WriteFails(id))
                 == s.(pending := s.pending - {id},
                       settled := s.settled + [Settlement(id, Rejected("control request write failed"))])
    ensures id !in s.pending ==> Next(parse, s, TimerFires(id)) == s && Next(parse, s, WriteFails(id)) == s
  {
  }

  // An accepted request gets the next id and waits, unless its write throws at once; a
  // request without a connection is not accepted.
  lemma RequestsWait(parse: Parse, s: State)
    requires Inv(s)
    ensures !s.connected ==> Next(parse, s, Request(false)) == s && Next(parse, s, Request(true)) == s
    ensures s.connected ==>
              && Next(parse, s, Request(false)) == s.(nextId := s.nextId + 1, pending := s.pending + {s.nextId})
              && Next(parse, s, Request(true))
                 == s.(nextId := s.nextId + 1,
                       settled := s.settled + [Settlement(s.nextId, Rejected("control request write failed"))])
  {
    assert s.nextId !in s.pending;
    assert s.pending + {s.nextId} - {s.nextId} == s.pending;
  }

  // A close rejects every pending request as disconnected, in the order of the ids.
  lemma CloseRejectsAll(s: State, i: nat, j: nat)
    requires Inv(s) && |s.settled| <= i < j < |Closed(s).settled|
    ensures Closed(s).settled[i].id < Closed(s).settled[j].id
  {
    DrainAscends(s.pending, 1, s.nextId, i - |s.settled|, j - |s.settled|);
  }

  lemma {:induction false} DrainAscends(pending: set<int>, from: int, until: int, i: nat, j: nat)
    requires i < j < |Drain(pending, from, until)|
    ensures from <= Drain(pending, from, until)[i].id < Drain(pending, from, until)[j].id
    decreases until - from
  {
    hide SettledIds;
    var rest := Drain(pending, from + 1, until);
    if from in pending {
      assert Drain(pending, from, until) == [Settlement(from, Rejected("disconnected"))] + rest;
      if i > 0 {
        DrainAscends(pending, from + 1, until, i - 1, j - 1);
      } else {
        DrainFrom(pending, from + 1, until, j - 1);
      }
    } else {
      assert Drain(pending, from, until) == rest;
      DrainAscends(pending, from + 1, until, i, j);
    }
  }

  lemma {:induction false} DrainFrom(pending: set<int>, from: int, until: int, j: nat)
    requires j < |Drain(pending, from, until)|
    ensures from <= Drain(pending, from, until)[j].id
    decreases until - from
  {
    var rest := Drain(pending, from + 1, until);
    if from in pending {
      assert Drain(pending, from, until) == [Settlement(from, Rejected("disconnected"))] + rest;
      if j > 0 { DrainFrom(pending, from + 1, until, j - 1); }
    } else {
      assert Drain(pending, from, until) == rest;
      DrainFrom(pending, from + 1, until, j);
    }
  }

  // And settles nothing else.
  lemma OnlyAnsweredAreSettled(parse: Parse, s: State, chunk: string, k: nat)
    requires |s.settled| <= k < |Received(parse, s, chunk).settled|
    ensures
      var x := Received(parse, s, chunk).settled[k];
      x.id in s.pending && AnswerTo(HeardIn(parse, s, chunk), x.id) == Some(x.how)
  {
    DeliveredOnly(s.(buf := Tail(s.buf + chunk)), HeardIn(parse, s, chunk), k);
  }

  // All messages of a chunk are handled exactly when none of them throws.
  lemma {:induction false} HeardAll(listening: bool, ms: seq<ServerMessage>)
    ensures Heard(listening, ms) == ms <==> forall m :: m in ms ==> !Throws(listening, m)
  {
    if ms != [] {
      HeardAll(listening, ms[1..]);
      assert forall m :: m in ms <==> m == ms[0] || m in ms[1..];
    }
  }

  // An error event that nobody listens to drops the answers behind it in its chunk; the
  // same chunk answers the request when somebody does, or when it is another event.
  lemma ErrorEventDropsAnswers(parse: Parse, s: State, chunk: string, name: string, answer: ServerMessage)
    requires Inv(s) && answer.Response? && answer.id in s.pending
    requires Decoded(parse, s.buf, chunk) == [Event(name), answer]
    ensures answer.id in Received(parse, s, chunk).pending <==> name == "error" && !s.listening
  {
    var ms := [Event(name), answer];
    assert ms[1..] == [answer] && [answer][1..] == [];
    assert Throws(s.listening, ms[0]) <==> name == "error" && !s.listening;
    HeardAll(s.listening, ms);
    assert forall m :: m in ms <==> m == ms[0] || m == answer;
    assert Heard(s.listening, ms) == if name != "error" || s.listening then ms else [];
    assert AnswerTo(ms, answer.id) == Some(HowOf(answer));
    AnswersReachTheirRequests(parse, s, chunk, answer.id);
  }

  // ---- Fragmentation of the byte stream is invisible -------------------------------------

  lemma {:induction false} DeliverInParts(s: State, a: seq<ServerMessage>, b: seq<ServerMessage>)
    ensures DeliverAll(s, a + b) == DeliverAll(DeliverAll(s, a), b)
    decreases |a|
  {
    if a == [] {
      assert a + b == b;
    } else {
      DeliverInParts(Deliver(s, a[0]), a[1..], b);
      assert (a + b)[1..] == a[1..] + b;
    }
  }

  lemma InvIgnoresBuffer(s: State, buf: string)
    ensures Inv(s.(buf := buf)) <==> Inv(s)
  {
  }

  lemma DeliverFirst(s: State, m: ServerMessage, ms: seq<ServerMessage>)
    ensures DeliverAll(s, [m] + ms) == DeliverAll(Deliver(s, m), ms)
  {
    assert ([m] + ms)[0] == m && ([m] + ms)[1..] == ms;
  }

  lemma DeliverNone(s: State)
    ensures DeliverAll(s, []) == s
  {
  }

  lemma HeardNext(listening: bool, ms: seq<ServerMessage>, i: nat)
    requires i < |ms|
    ensures Heard(listening, ms[i..])
         == if Throws(listening, ms[i]) then [] else [ms[i]] + Heard(listening, ms[i + 1..])
  {
    assert ms[i..][0] == ms[i] && ms[i..][1..] == ms[i + 1..];
  }

  lemma HeardNone(listening: bool, ms: seq<ServerMessage>)
    ensures Heard(listening, ms[|ms|..]) == []
  {
  }

  lemma {:induction false} DeliverIgnoresBuffer(s: State, ms: seq<ServerMessage>, buf: string)
    ensures DeliverAll(s.(buf := buf), ms) == DeliverAll(s, ms).(buf := buf)
    decreases |ms|
  {
    if ms != [] { DeliverIgnoresBuffer(Deliver(s, ms[0]), ms[1..], buf); }
  }

  lemma {:induction false} HeardConcat(listening: bool, a: seq<ServerMessage>, b: seq<ServerMessage>)
    ensures Heard(listening, a + b)
         == if Heard(listening, a) == a then a + Heard(listening, b) else Heard(listening, a)
  {
    if a == [] {
      assert a + b == b;
    } else {
      HeardConcat(listening, a[1..], b);
      assert (a + b)[0] == a[0] && (a + b)[1..] == a[1..] + b;
    }
  }

  predicate AnswersPending(s: State, m: ServerMessage) {
    m.Response? && m.id in s.pending
  }

  // Messages that answer nothing pending change nothing, and only they.
  lemma {:induction false} DeliversNothing(s: State, ms: seq<ServerMessage>)
    ensures DeliverAll(s, ms) == s <==> forall m :: m in ms ==> !AnswersPending(s, m)
    decreases |ms|
  {
    if ms != [] {
      assert forall m :: m in ms <==> m == ms[0] || m in ms[1..];
      if AnswersPending(s, ms[0]) {
        DeliverAllOnlySettles(Deliver(s, ms[0]), ms[1..]);
        assert |s.settled| < |DeliverAll(s, ms).settled|;
      } else {
        DeliversNothing(s, ms[1..]);
      }
    }
  }

  // Receiving two chunks is receiving them glued together, exactly when no message of the
  // first throws or none that is handled in the second answers a pending request.
  lemma FragmentsAreInvisible(parse: Parse, s: State, c1: string, c2: string)
    ensures
      var mid := Received(parse, s, c1);
      Received(parse, mid, c2) == Received(parse, s, c1 + c2) <==>
        || (forall m :: m in Decoded(parse, s.buf, c1) ==> !Throws(s.listening, m))
        || (forall m :: m in HeardIn(parse, mid, c2) ==> !AnswersPending(mid, m))
  {
    hide DeliverAll, CompleteLines, Tail, DecodeLines, Heard;
    var first, mid := Decoded(parse, s.buf, c1), Received(parse, s, c1);
    var second := Decoded(parse, mid.buf, c2);
    GluedChunks(parse, s, c1, c2);
    HeardConcat(s.listening, first, second);
    HeardAll(s.listening, first);
    var end := Tail(mid.buf + c2);
    DeliverIgnoresBuffer(s, Heard(s.listening, first), Tail(s.buf + c1));
    DeliverIgnoresBuffer(s, Heard(s.listening, first), end);
    DeliverIgnoresBuffer(mid, Heard(s.listening, second), end);
    DeliversNothing(mid, Heard(s.listening, second));
    if Heard(s.listening, first) == first {
      DeliverInParts(s.(buf := end), first, Heard(s.listening, second));
      assert mid.(buf := end) == DeliverAll(s.(buf := end), first);
    } else {
      assert Received(parse, s, c1 + c2) == mid.(buf := end);
      assert Received(parse, mid, c2) == DeliverAll(mid, Heard(s.listening, second)).(buf := end);
      DeliverAllOnlySettles(mid, Heard(s.listening, second));
      SameButForBuffer(mid, DeliverAll(mid, Heard(s.listening, second)), end);
    }
  }

  // What the two chunks decode to, and what is left, glued or not.
  lemma GluedChunks(parse: Parse, s: State, c1: string, c2: string)
    ensures
      var mid := Received(parse, s, c1);
      && mid.buf == Tail(s.buf + c1) && mid.listening == s.listening
      && Decoded(parse, s.buf, c1 + c2) == Decoded(parse, s.buf, c1) + Decoded(parse, mid.buf, c2)
      && Tail(s.buf + (c1 + c2)) == Tail(mid.buf + c2)
  {
    hide CompleteLines, Tail, DecodeLines, Heard;
    var all := s.buf + c1;
    DeliverAllOnlySettles(s.(buf := Tail(all)), HeardIn(parse, s, c1));
    MoreBytes(all, c2);
    assert s.buf + (c1 + c2) == all + c2;
    DecodeLinesConcat(parse, CompleteLines(all), CompleteLines(Tail(all) + c2));
  }

  lemma SameButForBuffer(s: State, t: State, buf: string)
    requires t.buf == s.buf
    ensures s.(buf := buf) == t.(buf := buf) <==> s == t
  {
  }

  // ---- Reconnecting --------------------------------------------------------------------------

  // Only open connections close, and connect is not called again.
  ghost predicate LeftAlone(parse: Parse, s: State, steps: seq<Step>) {
    forall k :: 0 <= k < |steps| ==>
      && !steps[k].SocketOpens?
      && (steps[k].SocketCloses? ==> Run(parse, s, steps[..k]).connected)
  }

  predicate ComesBack(s: State) {
    s.connected || s.retry.Connecting? || (s.retry.Timer? && !s.closing)
  }

  lemma LeftAlonePrefix(parse: Parse, s: State, steps: seq<Step>, n: nat)
    requires LeftAlone(parse, s, steps) && n <= |steps|
    ensures LeftAlone(parse, s, steps[..n])
  {
    hide Run;
    forall k | 0 <= k < n ensures steps[..n][..k] == steps[..k] {
    }
  }

  lemma {:induction false} StaysAway(parse: Parse, s: State, steps: seq<Step>)
    requires !ComesBack(s) && LeftAlone(parse, s, steps)
    ensures !ComesBack(Run(parse, s, steps))
  {
    if steps != [] {
      var n := |steps| - 1;
      LeftAlonePrefix(parse, s, steps, n);
      StaysAway(parse, s, steps[..n]);
      var before := Run(parse, s, steps[..n]);
      if steps[n].Data? {
        var chunk := steps[n].chunk;
        DeliverAllOnlySettles(before.(buf := Tail(before.buf + chunk)), HeardIn(parse, before, chunk));
      }
    }
  }

  // Main result: left alone, a client can be connected again exactly when it is, or a
  // reconnect is under way, or its timer runs and the client has not been closed. A close
  // stops a waiting timer, but not a connection that is already being made.
  lemma ReconnectCondition(parse: Parse, s: State)
    ensures ComesBack(s) <==> exists steps :: LeftAlone(parse, s, steps) && Run(parse, s, steps).connected
  {
    if exists steps :: LeftAlone(parse, s, steps) && Run(parse, s, steps).connected {
      var steps :| LeftAlone(parse, s, steps) && Run(parse, s, steps).connected;
      if !ComesBack(s) { StaysAway(parse, s, steps); }
    }
    if s.connected {
      assert LeftAlone(parse, s, []) && Run(parse, s, []).connected;
    } else if s.retry.Connecting? {
      RunOne(parse, s, Reconnects);
      assert LeftAlone(parse, s, [Reconnects]) && Run(parse, s, [Reconnects]).connected;
    } else if s.retry.Timer? && !s.closing {
      RunTwo(parse, s, AttemptFires, Reconnects);
      assert LeftAlone(parse, s, [AttemptFires, Reconnects]) && Run(parse, s, [AttemptFires, Reconnects]).connected;
    }
  }

  lemma RunOne(parse: Parse, s: State, a: Step)
    ensures Run(parse, s, [a]) == Next(parse, s, a)
  {
    assert [a][..0] == [];
  }

  lemma RunTwo(parse: Parse, s: State, a: Step, b: Step)
    ensures Run(parse, s, [a, b]) == Next(parse, Next(parse, s, a), b)
  {
    RunOne(parse, s, a);
    assert [a, b][..1] == [a];
  }

  // That state is reached: closed while a reconnect is under way, the client is connected
  // all the same.
  lemma CloseMissesConnection(parse: Parse)
    ensures
      var s := Run(parse, INITIAL, [SocketOpens, SocketCloses, AttemptFires, Close, Reconnects]);
      s.closing && s.connected
  {
    var steps := [SocketOpens, SocketCloses, AttemptFires, Close, Reconnects];
    assert steps[..4] == [SocketOpens, SocketCloses, AttemptFires, Close];
    assert steps[..4][..3] == [SocketOpens, SocketCloses, AttemptFires];
    assert steps[..4][..3][..2] == [SocketOpens, SocketCloses];
    assert steps[..4][..3][..2][..1] == [SocketOpens];
    assert [SocketOpens][..0] == [];
    assert Run(parse, INITIAL, [SocketOpens]).connected;
    assert Run(parse, INITIAL, [SocketOpens, SocketCloses]).retry.Timer?;
    assert Run(parse, INITIAL, steps[..4][..3]).retry.Connecting?;
  }

  // A reconnect starts with an empty buffer and keeps requests, ids and settlements; a
  // first connection keeps the buffer as well. Closing by itself settles nothing.
  lemma ConnectionsKeepTheTable(parse: Parse, s: State)
    ensures s.retry.Connecting? ==> Next(parse, s, Reconnects) == s.(connected := true, buf := "", retry := NoRetry)
    ensures Next(parse, s, SocketOpens) == s.(connected := true)
    ensures Next(parse, s, Close) == s.(closing := true)
    ensures s.retry.Timer? ==> Next(parse, s, AttemptFires).retry == if s.closing then NoRetry else Connecting
    ensures s.retry.Connecting? ==> Next(parse, s, AttemptFails) == s.(retry := Timer)
    ensures Next(parse, s, SocketCloses).retry == if s.closing then s.retry else Timer
  {
  }

  // A client that lost its connection keeps trying until it is back or closed.
  lemma {:induction false} KeepsTrying(parse: Parse, s: State, steps: seq<Step>)
    requires !s.closing && forall k :: 0 <= k < |steps| ==> !steps[k].Close?
    requires s.connected || s.retry != NoRetry
    ensures
      var later := Run(parse, s, steps);
      !later.closing && (later.connected || later.retry != NoRetry)
  {
    if steps != [] {
      var n := |steps| - 1;
      KeepsTrying(parse, s, steps[..n]);
      var before := Run(parse, s, steps[..n]);
      if steps[n].Data? {
        var chunk := steps[n].chunk;
        DeliverAllOnlySettles(before.(buf := Tail(before.buf + chunk)), HeardIn(parse, before, chunk));
      }
    }
  }

  // ---- The client object ------------------------------------------------------------------

  class Client {
    const parse: Parse
    var connected: bool
    var nextId: int
    var pending: set<int>
    var decode: Decoder<ServerMessage>
    var closing: bool
    var retry: Retry
    var listening: bool
    ghost var settled: seq<Settlement>

    ghost predicate Valid()
      reads this, decode
    {
      decode.parse == parse && Inv(Value())
    }

    ghost function Value(): State
      reads this, decode
    {
      State(connected, nextId, pending, decode.buf, closing, retry, listening, settled)
    }

    constructor (parse: Parse)
      ensures Valid() && this.parse == parse && Value() == INITIAL && fresh(decode)
    {
      this.parse := parse;
      connected, nextId, pending, closing, retry, listening, settled := false, 1, {}, false, NoRetry, false, [];
      decode := new Decoder(parse);
      new;
      RequestsPendOrSettleOnce(parse, []);
    }

    // Resolve or reject the promise of a pending request, dropping it from the table.
    method SettlePending(id: int, how: How) returns (was: bool)
      requires Inv(Value())
      modifies this`pending, this`settled
      ensures Value() == SettleOne(old(Value()), id, how) && Inv(Value())
      ensures was <==> id in old(pending)
    {
      SettleOneKeepsInv(Value(), id, how);
      if id !in pending { return false; }
      pending := pending - {id};
      settled := settled + [Settlement(id, how)];
      return true;
    }

    method Req(writeThrows: bool) returns (id: Option<int>)
      requires Valid()
      modifies this
      ensures Valid() && decode == old(decode) && Value() == Next(parse, old(Value()), Request(writeThrows))
      ensures id == if old(connected) then Some(old(nextId)) else None
    {
      StepKeepsInv(parse, Value(), Request(writeThrows));
      if !connected { return None; }
      id := Some(nextId);
      StepKeepsInv(parse, Value(), Request(false));
      nextId := nextId + 1;
      pending := pending + {id.value};
      if writeThrows {
        var _ := SettlePending(id.value, Rejected("control request write failed"));
      }
    }

    // An error event that nobody listens to ends the loop.
    method OnData(chunk: string) returns (threw: bool)
      requires Valid()
      modifies this, decode
      ensures Valid() && decode == old(decode) && Value() == Next(parse, old(Value()), Data(chunk))
      ensures threw <==> exists m :: m in Decoded(parse, old(decode.buf), chunk) && Throws(old(listening), m)
    {
      hide Inv, DeliverAll, DecodeLines, CompleteLines, Tail, Heard;
      ghost var start := Value().(buf := Tail(decode.buf + chunk));
      InvIgnoresBuffer(Value(), start.buf);
      var ms := decode.Feed(chunk);
      var i := 0;
      assert ms[i..] == ms;
      while i < |ms|
        invariant 0 <= i <= |ms| && decode == old(decode) && decode.buf == start.buf && Inv(Value())
        invariant listening == start.listening
        invariant DeliverAll(Value(), Heard(listening, ms[i..])) == DeliverAll(start, Heard(listening, ms))
        invariant forall m :: m in ms[..i] ==> !Throws(listening, m)
      {
        HeardNext(listening, ms, i);
        assert ms[..i + 1] == ms[..i] + [ms[i]];
        match ms[i] {
          case Response(id, _, _) =>
            DeliverFirst(Value(), ms[i], Heard(listening, ms[i + 1..]));
            var _ := SettlePending(id, HowOf(ms[i]));
          case Event(_) =>
            if Throws(listening, ms[i]) {
              DeliverNone(Value());
              return true;
            }
            DeliverFirst(Value(), ms[i], Heard(listening, ms[i + 1..]));
        }
        i := i + 1;
      }
      HeardNone(listening, ms);
      DeliverNone(Value());
      assert ms[..i] == ms;
      return false;
    }

    method OnSocketClose()
      requires Valid()
      modifies this
      ensures Valid() && decode == old(decode) && Value() == Next(parse, old(Value()), SocketCloses)
      ensures pending == {}
    {
      hide Inv;
      ghost var before := Value();
      StepKeepsInv(parse, before, SocketCloses);
      connected := false;
      var id := 1;
      while id < nextId
        invariant nextId == before.nextId && pending == before.pending && closing == before.closing
        invariant !connected && decode == old(decode) && retry == before.retry && listening == before.listening
        invariant settled + Drain(pending, id, nextId) == before.settled + Drain(pending, 1, nextId)
      {
        if id in pending {
          ghost var rest := Drain(pending, id + 1, nextId);
          assert settled + ([Settlement(id, Rejected("disconnected"))] + rest)
              == (settled + [Settlement(id, Rejected("disconnected"))]) + rest;
          settled := settled + [Settlement(id, Rejected("disconnected"))];
        }
        id := id + 1;
      }
      assert settled + Drain(pending, id, nextId) == settled;
      pending := {};
      if !closing { retry := Timer; }
    }

    method Shut()
      requires Valid()
      modifies this`closing
      ensures Valid() && Value() == Next(parse, old(Value()), Close)
    {
      closing := true;
    }

    // Attaching and removing a listener to error events.
    method OnError(on: bool)
      requires Valid()
      modifies this`listening
      ensures Valid() && Value() == Next(parse, old(Value()), Listen(on))
    {
      listening := on;
    }

    method OnConnected()
      requires Valid()
      modifies this`connected
      ensures Valid() && Value() == Next(parse, old(Value()), SocketOpens)
    {
      connected := true;
    }

    // The attempt of scheduleReconnect: what its timer does, and how its connection ends.
    method OnAttempt()
      requires Valid()
      modifies this`retry
      ensures Valid() && Value() == Next(parse, old(Value()), AttemptFires)
    {
      if retry.Timer? {
        if closing { retry := NoRetry; } else { retry := Connecting; }
      }
    }

    method OnAttemptFailed()
      requires Valid()
      modifies this`retry
      ensures Valid() && Value() == Next(parse, old(Value()), AttemptFails)
    {
      if retry.Connecting? { retry := Timer; }
    }

    method OnReconnected()
      requires Valid()
      modifies this
      ensures Valid() && Value() == Next(parse, old(Value()), Reconnects)
      ensures old(retry).Connecting? ==> fresh(decode)
    {
      StepKeepsInv(parse, Value(), Reconnects);
      if retry.Connecting? {
        decode := new Decoder(parse);
        connected := true;
        retry := NoRetry;
      }
    }
  }
}
