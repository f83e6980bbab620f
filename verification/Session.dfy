/**
 * One served session (src/session.cpp): the frame loop as a step on what arrived. The socket, the message
 * handler and the authentication secret are inputs.
 */
module Sessions {
  const HELLO: nat := 1
  const REPLAY_LIMIT: nat := 8

  /** What the body of a hello amounts to. */
  datatype Hello = HelloMalformed | HelloUnauthorized | HelloAccepted(max: nat)

  /** What the handler makes of a frame: an error, a reply type that does not exist, or a reply. */
  datatype Reply = ReplyError | ReplyUnmapped | ReplyBody

  datatype Event =
    | Quiet
    | Lost
    | Garbled
    | Cut
    | Arrived(sequence: nat, kind: nat, intact: bool, hello: Hello, reply: Reply, delivered: bool)

  datatype Config = Config(maxPayload: nat, handled: bool)

  /** The loop's variables, and a log of what it sent and what it handed to the handler. */
  datatype Session = Session(
    open: bool, inbound: nat, outbound: nat, replays: nat, handshaken: bool, maxPayload: nat,
    sent: seq<nat>, dispatched: seq<nat>)

  function Fresh(c: Config): Session { Session(true, 0, 0, 0, false, c.maxPayload, [], []) }

  /** Every frame sent takes the next outbound sequence, delivered or not. */
  function Send(s: Session): Session { s.(outbound := s.outbound + 1, sent := s.sent + [s.outbound + 1]) }

  function Close(s: Session): Session { s.(open := false) }

  function Negotiated(c: Config, wanted: nat): nat {
    var least := if c.maxPayload <= wanted then c.maxPayload else wanted;
    if least == 0 then c.maxPayload else least
  }

  function Shake(c: Config, s: Session, e: Event): Session
    requires e.Arrived?
  {
    if e.kind != HELLO then Close(Send(s))
    else
      match e.hello
      case HelloMalformed => Close(Send(s))
      case HelloUnauthorized => Close(Send(s))
      case HelloAccepted(max) =>
        var s' := Send(s.(maxPayload := Negotiated(c, max)));
        if e.delivered then s'.(handshaken := true) else Close(s')
  }

  function Dispatch(s: Session, e: Event): Session
    requires e.Arrived?
  {
    var s' := Send(s.(dispatched := s.dispatched + [e.sequence]));
    if e.reply.ReplyBody? && !e.delivered then Close(s') else s'
  }

  function Step(c: Config, s: Session, e: Event): Session {
    if !s.open then s
    else
      match e
      case Quiet => s
      case Lost => Close(s)
      case Garbled => Close(Send(s))
      case Cut => Close(s)
      case Arrived(sequence, kind, intact, _, _, _) =>
        if !intact then Close(Send(s))
        else if sequence <= s.inbound then
          var s' := Send(s.(replays := s.replays + 1));
          if s'.replays > REPLAY_LIMIT then Close(s') else s'
        else
          var s' := s.(inbound := sequence);
          if !s.handshaken then Shake(c, s', e)
          else if kind == HELLO || !c.handled then Send(s')
          else Dispatch(s', e)
  }

  function Serve(c: Config, s: Session, events: seq<Event>): Session
    decreases |events|
  {
    if events == [] then s else Serve(c, Step(c, s, events[0]), events[1..])
  }

  predicate Increasing(xs: seq<nat>) { forall i, j | 0 <= i < j < |xs| :: xs[i] < xs[j] }

  /** What holds of every session at every moment. */
  predicate Sane(s: Session) {
    && Increasing(s.dispatched) && (forall i | 0 <= i < |s.dispatched| :: s.dispatched[i] <= s.inbound)
    && (s.dispatched != [] ==> s.handshaken)
    && s.replays <= 9 && (s.open ==> s.replays <= 8)
    && |s.sent| == s.outbound && (forall i | 0 <= i < |s.sent| :: s.sent[i] == i + 1)
  }

  lemma StepSane(c: Config, s: Session, e: Event)
    requires Sane(s)
    ensures Sane(Step(c, s, e))
    ensures s.inbound <= Step(c, s, e).inbound && (s.handshaken ==> Step(c, s, e).handshaken)
  {
  }

  /**
   * For every stream of frames: what is dispatched has strictly increasing sequence numbers, nothing is
   * dispatched before an accepted hello, at most nine replays are answered, and what is sent is numbered
   * one by one.
   */
  lemma {:induction false} SessionsAreSane(c: Config, s: Session, events: seq<Event>)
    requires Sane(s)
    ensures Sane(Serve(c, s, events))
    decreases |events|
  {
    if events == [] {
    } else {
      StepSane(c, s, events[0]);
      SessionsAreSane(c, Step(c, s, events[0]), events[1..]);
    }
  }

  /** The event completes the handshake. */
  predicate Accepts(s: Session, e: Event) {
    && s.open && !s.handshaken && e.Arrived? && e.intact && e.sequence > s.inbound
    && e.kind == HELLO && e.hello.HelloAccepted? && e.delivered
  }

  /** A session is established by an accepted hello and by nothing else. */
  lemma HandshakeExactly(c: Config, s: Session, e: Event)
    ensures !s.handshaken ==> (Step(c, s, e).handshaken <==> Accepts(s, e))
  {
  }

  /** A frame that counts: whole, and numbered above all before it. */
  predicate Counts(s: Session, e: Event) { e.Arrived? && e.intact && e.sequence > s.inbound }

  /** The event goes to the handler. */
  predicate Handled(c: Config, s: Session, e: Event) {
    s.open && s.handshaken && Counts(s, e) && e.kind != HELLO && c.handled
  }

  /** The event ends the session: the line is gone, the frame is damaged, replayed once too often, or refused. */
  predicate Ends(c: Config, s: Session, e: Event) {
    || e.Lost? || e.Cut? || e.Garbled?
    || (e.Arrived? && !e.intact)
    || (e.Arrived? && e.intact && e.sequence <= s.inbound && s.replays >= 8)
    || (Counts(s, e) && !s.handshaken && !(e.kind == HELLO && e.hello.HelloAccepted? && e.delivered))
    || (Handled(c, s, e) && e.reply.ReplyBody? && !e.delivered)
  }

  /**
   * One event: a frame, whole or damaged, is answered exactly once and nothing else is; it is dispatched exactly
   * when it should be; the session stays open unless the event ends it; replays are counted.
   */
  lemma StepExactly(c: Config, s: Session, e: Event)
    requires s.open
    ensures var s' := Step(c, s, e);
      && s'.outbound == s.outbound + (if e.Arrived? || e.Garbled? then 1 else 0)
      && s'.dispatched == (if Handled(c, s, e) then s.dispatched + [e.sequence] else s.dispatched)
      && (s'.open <==> !Ends(c, s, e))
      && s'.inbound == (if Counts(s, e) then e.sequence else s.inbound)
      && s'.replays == s.replays + (if e.Arrived? && e.intact && e.sequence <= s.inbound then 1 else 0)
      && (s.handshaken ==> s'.handshaken && s'.maxPayload == s.maxPayload)
  {
  }

  // ---------------------------------------------------------------------------------------------
  // The payload limit
  // ---------------------------------------------------------------------------------------------

  /** The limit is one side's and above neither's; a side that names none leaves it to the other. */
  predicate Agreed(c: Config, wanted: nat, limit: nat) {
    && limit <= c.maxPayload && (wanted > 0 ==> limit <= wanted)
    && (limit == c.maxPayload || limit == wanted) && (c.maxPayload > 0 ==> limit > 0)
  }

  lemma HandshakeAgrees(c: Config, s: Session, e: Event)
    requires Accepts(s, e)
    ensures Agreed(c, e.hello.max, Step(c, s, e).maxPayload)
  {
  }

  /** A closed session answers nothing, whatever arrives. */
  lemma {:induction false} ClosedIsClosed(c: Config, s: Session, events: seq<Event>)
    requires !s.open
    ensures Serve(c, s, events) == s
    decreases |events|
  {
    if events == [] {
    } else {
      ClosedIsClosed(c, s, events[1..]);
    }
  }

  // ---------------------------------------------------------------------------------------------
  // The stream
  // ---------------------------------------------------------------------------------------------

  /** The session once the first `k` events have arrived. */
  function After(c: Config, events: seq<Event>, k: nat): Session
    requires k <= |events|
  {
    Serve(c, Fresh(c), events[..k])
  }

  lemma {:induction false} ServeOneMore(c: Config, s: Session, events: seq<Event>, e: Event)
    ensures Serve(c, s, events + [e]) == Step(c, Serve(c, s, events), e)
    decreases |events|
  {
    if events == [] {
      assert (events + [e])[1..] == [];
    } else {
      assert (events + [e])[1..] == events[1..] + [e];
      ServeOneMore(c, Step(c, s, events[0]), events[1..], e);
    }
  }

  lemma AfterOneMore(c: Config, events: seq<Event>, k: nat)
    requires k < |events|
    ensures After(c, events, k + 1) == Step(c, After(c, events, k), events[k])
  {
    assert events[..k + 1] == events[..k] + [events[k]];
    ServeOneMore(c, Fresh(c), events[..k], events[k]);
  }

  /** The event is an accepted hello where it stands in the stream. */
  predicate HelloAt(c: Config, events: seq<Event>, i: nat)
    requires i < |events|
  {
    Accepts(After(c, events, i), events[i])
  }

  lemma {:induction false} EstablishedByHello(c: Config, events: seq<Event>, k: nat)
    requires k <= |events| && After(c, events, k).handshaken
    ensures exists i | 0 <= i < k :: HelloAt(c, events, i)
    decreases k
  {
    assert events[..0] == [];
    if k > 0 {
      AfterOneMore(c, events, k - 1);
      HandshakeExactly(c, After(c, events, k - 1), events[k - 1]);
      if After(c, events, k - 1).handshaken {
        EstablishedByHello(c, events, k - 1);
      } else {
        assert HelloAt(c, events, k - 1);
      }
    }
  }

  /** In every stream, an established session keeps the limit agreed in the hello that established it. */
  lemma {:induction false} LimitIsAgreed(c: Config, events: seq<Event>, k: nat)
    requires k <= |events| && After(c, events, k).handshaken
    ensures exists i | 0 <= i < k ::
              HelloAt(c, events, i) && Agreed(c, events[i].hello.max, After(c, events, k).maxPayload)
    decreases k
  {
    assert events[..0] == [];
    if k > 0 {
      var s := After(c, events, k - 1);
      AfterOneMore(c, events, k - 1);
      HandshakeExactly(c, s, events[k - 1]);
      if s.handshaken {
        LimitIsAgreed(c, events, k - 1);
        if s.open { StepExactly(c, s, events[k - 1]); }
      } else {
        HandshakeAgrees(c, s, events[k - 1]);
        assert HelloAt(c, events, k - 1);
      }
    }
  }

  /** The event is handed to the handler. */
  predicate DispatchedAt(c: Config, events: seq<Event>, j: nat)
    requires j < |events|
  {
    After(c, events, j + 1).dispatched != After(c, events, j).dispatched
  }

  /** In every stream, whatever is handed to the handler was preceded by an accepted hello. */
  lemma DispatchFollowsHello(c: Config, events: seq<Event>, j: nat)
    requires j < |events| && DispatchedAt(c, events, j)
    ensures exists i | 0 <= i < j :: HelloAt(c, events, i)
  {
    AfterOneMore(c, events, j);
    EstablishedByHello(c, events, j);
  }

  /** The loop itself, over the events of one connection. */
  method Loop(c: Config, events: seq<Event>) returns (s: Session)
    ensures s == Serve(c, Fresh(c), events)
    ensures Sane(s)
  {
    var inbound: nat, outbound: nat, replays: nat := 0, 0, 0;
    var handshaken: bool, maxPayload: nat := false, c.maxPayload;
    var sent, dispatched: seq<nat> := [], [];
    var open := true;
    var k := 0;
    while open && k < |events|
      invariant 0 <= k <= |events|
      invariant Serve(c, Fresh(c), events) ==
        Serve(c, Session(open, inbound, outbound, replays, handshaken, maxPayload, sent, dispatched), events[k..])
      invariant Sane(Session(open, inbound, outbound, replays, handshaken, maxPayload, sent, dispatched))
      decreases |events| - k
    {
      ghost var before := Session(open, inbound, outbound, replays, handshaken, maxPayload, sent, dispatched);
      var e := events[k];
      StepSane(c, before, e);
      assert events[k..][1..] == events[k + 1..];
      k := k + 1;
      if e.Quiet? { continue; }
      if e.Lost? || e.Cut? {
        open := false;
        continue;
      }
      if e.Garbled? || !e.intact {
        outbound := outbound + 1;
        sent := sent + [outbound];
        open := false;
        continue;
      }
      if e.sequence <= inbound {
        replays := replays + 1;
        outbound := outbound + 1;
        sent := sent + [outbound];
        if replays > REPLAY_LIMIT { open := false; }
        continue;
      }
      inbound := e.sequence;
      outbound := outbound + 1;
      sent := sent + [outbound];
      if !handshaken {
        if e.kind != HELLO || !e.hello.HelloAccepted? {
          open := false;
          continue;
        }
        maxPayload := if c.maxPayload <= e.hello.max then c.maxPayload else e.hello.max;
        if maxPayload == 0 { maxPayload := c.maxPayload; }
        if e.delivered { handshaken := true; } else { open := false; }
        continue;
      }
      if e.kind == HELLO || !c.handled { continue; }
      dispatched := dispatched + [e.sequence];
      if e.reply.ReplyBody? && !e.delivered { open := false; }
    }
    s := Session(open, inbound, outbound, replays, handshaken, maxPayload, sent, dispatched);
    if !open { ClosedIsClosed(c, s, events[k..]); } else { assert events[k..] == []; }
  }
}
