/** Requests and responses of an LSP session (scripts/lsp.ts `request`, the dispatch in the reader), over whole
    runs that mix them with notifications and with requests of the server's own. */
module Requests {
  import opened Graph

  /** A JSON-RPC id as the server writes it. */
  datatype Id = Number(n: int) | Name(s: string) | Null

  /** A parsed message of the server; `name` is its method, empty when it has none. */
  datatype Incoming = Incoming(name: string, id: Option<Id>, payload: string)
  datatype Outgoing = Request(id: nat, name: string) | Notice(name: string) | Reply(asked: Id)

  datatype Event = Ask(name: string) | Tell(name: string) | Arrive(msg: Incoming)

  /** A promise resolved with a message. */
  datatype Settled = Settled(id: nat, msg: Incoming)

  datatype State = State(last: nat, pending: set<nat>, settled: seq<Settled>, sent: seq<Outgoing>)

  function Dispatched(s: State, msg: Incoming): State {
    var s1 := if msg.name != "" && msg.id.Some? then s.(sent := s.sent + [Reply(msg.id.value)]) else s;
    if msg.name == "" && msg.id.Some? && msg.id.value.Number? && msg.id.value.n in s.pending then
      s1.(pending := s.pending - {msg.id.value.n}, settled := s.settled + [Settled(msg.id.value.n, msg)])
    else s1
  }

  function Step(s: State, e: Event): State {
    match e
    case Ask(name) =>
      s.(last := s.last + 1, pending := s.pending + {s.last + 1}, sent := s.sent + [Request(s.last + 1, name)])
    case Tell(name) => s.(sent := s.sent + [Notice(name)])
    case Arrive(msg) => Dispatched(s, msg)
  }

  function Run(events: seq<Event>): State {
    if events == [] then State(0, {}, [], [])
    else Step(Run(events[..|events| - 1]), events[|events| - 1])
  }

  class Session {
    var id: nat
    var pending: set<nat>
    var settled: seq<Settled>
    var sent: seq<Outgoing>

    function Now(): State
      reads this
    {
      State(id, pending, settled, sent)
    }

    constructor ()
      ensures Now() == Run([])
    {
      id, pending, settled, sent := 0, {}, [], [];
    }

    method Ask(name: string)
      modifies this
      ensures Now() == Step(old(Now()), Event.Ask(name))
    {
      id := id + 1;
      pending := pending + {id};
      sent := sent + [Request(id, name)];
    }

    method Tell(name: string)
      modifies this
      ensures Now() == Step(old(Now()), Event.Tell(name))
    {
      sent := sent + [Notice(name)];
    }

    /** Answer the server's own requests; hand a response to the request that waits for it, once. */
    method Dispatch(msg: Incoming)
      modifies this
      ensures Now() == Step(old(Now()), Arrive(msg))
    {
      if msg.name != "" && msg.id.Some? { sent := sent + [Reply(msg.id.value)]; }
      if msg.id.Some? && msg.name == "" {
        match msg.id.value {
          case Number(n) =>
            if n in pending {
              settled := settled + [Settled(n, msg)];
              pending := pending - {n};
            }
          case _ =>
        }
      }
    }
  }

  // ---------- what a run means, said without the machine ----------

  /** How many requests were sent before event `at`. */
  function Asked(events: seq<Event>, at: nat): nat
    requires at <= |events|
  {
    if at == 0 then 0 else Asked(events, at - 1) + if events[at - 1].Ask? then 1 else 0
  }

  predicate IsResponse(msg: Incoming, k: nat) {
    msg.name == "" && msg.id == Some(Number(k))
  }

  /** Event `at` is a response to request `k`, which had been sent by then. */
  predicate Answers(events: seq<Event>, k: nat, at: nat) {
    at < |events| && events[at].Arrive? && IsResponse(events[at].msg, k) && 1 <= k <= Asked(events, at)
  }

  ghost predicate FirstAnswer(events: seq<Event>, k: nat, at: nat) {
    Answers(events, k, at) && forall i: nat | i < at :: !Answers(events, k, i)
  }

  ghost predicate Answered(events: seq<Event>, k: nat) { exists i: nat :: Answers(events, k, i) }

  lemma {:induction false} AskedPrefix(events: seq<Event>, e: Event, at: nat)
    requires at <= |events|
    ensures Asked(events + [e], at) == Asked(events, at)
  {
    if at > 0 { AskedPrefix(events, e, at - 1); }
  }

  lemma AnswersPrefix(events: seq<Event>, e: Event, k: nat)
    ensures forall i: nat | i < |events| :: Answers(events + [e], k, i) <==> Answers(events, k, i)
    ensures Answers(events + [e], k, |events|) <==>
      e.Arrive? && IsResponse(e.msg, k) && 1 <= k <= Asked(events, |events|)
    ensures Answered(events + [e], k) <==> Answered(events, k) || Answers(events + [e], k, |events|)
  {
    forall i: nat | i <= |events| ensures Asked(events + [e], i) == Asked(events, i) { AskedPrefix(events, e, i); }
    if Answered(events, k) {
      var i: nat :| Answers(events, k, i);
      assert Answers(events + [e], k, i);
    }
  }

  lemma FirstAnswerPrefix(events: seq<Event>, e: Event, k: nat, at: nat)
    ensures at < |events| ==> (FirstAnswer(events + [e], k, at) <==> FirstAnswer(events, k, at))
    ensures at == |events| ==> (FirstAnswer(events + [e], k, at) <==>
      Answers(events + [e], k, |events|) && !Answered(events, k))
  {
    AnswersPrefix(events, e, k);
  }

  /** The ids given to requests, in the order they were sent. */
  function Ids(sent: seq<Outgoing>): seq<nat> {
    if sent == [] then []
    else
      var front := Ids(sent[..|sent| - 1]);
      if sent[|sent| - 1].Request? then front + [sent[|sent| - 1].id] else front
  }

  /** The ids the session replied to, in order. */
  function Replies(sent: seq<Outgoing>): seq<Id> {
    if sent == [] then []
    else
      var front := Replies(sent[..|sent| - 1]);
      if sent[|sent| - 1].Reply? then front + [sent[|sent| - 1].asked] else front
  }

  /** The ids of the server's own requests, in the order they arrived. */
  function ServerRequests(events: seq<Event>): seq<Id> {
    if events == [] then []
    else
      var front, e := ServerRequests(events[..|events| - 1]), events[|events| - 1];
      if e.Arrive? && e.msg.name != "" && e.msg.id.Some? then front + [e.msg.id.value] else front
  }

  function UpTo(n: nat): (ids: seq<nat>)
    ensures |ids| == n && forall i | 0 <= i < n :: ids[i] == i + 1
  {
    if n == 0 then [] else UpTo(n - 1) + [n]
  }

  /** The requests sent so far carry 1, 2, 3, …: no id is used twice. */
  lemma {:induction false} IdsAreNeverReused(events: seq<Event>)
    ensures Run(events).last == Asked(events, |events|)
    ensures Ids(Run(events).sent) == UpTo(Asked(events, |events|))
  {
    if events != [] {
      var front, e := events[..|events| - 1], events[|events| - 1];
      assert events == front + [e];
      IdsAreNeverReused(front);
      AskedPrefix(front, e, |front|);
      SentGrows(Run(front), e);
    }
  }

  lemma SentGrows(s: State, e: Event)
    ensures Ids(Step(s, e).sent) == if e.Ask? then Ids(s.sent) + [s.last + 1] else Ids(s.sent)
    ensures Replies(Step(s, e).sent) == if e.Arrive? && e.msg.name != "" && e.msg.id.Some?
      then Replies(s.sent) + [e.msg.id.value]
                                        else Replies(s.sent)
  {
    var s' := Step(s, e);
    assert s'.sent != s.sent ==> s'.sent[..|s'.sent| - 1] == s.sent;
  }

  /** Every request of the server is answered, once, in order; nothing else is. */
  lemma {:induction false} ServerRequestsAreAnswered(events: seq<Event>)
    ensures Replies(Run(events).sent) == ServerRequests(events)
  {
    if events != [] {
      ServerRequestsAreAnswered(events[..|events| - 1]);
      SentGrows(Run(events[..|events| - 1]), events[|events| - 1]);
    }
  }

  /** What the session sends of its own accord: its requests and notices. */
  function Said(sent: seq<Outgoing>): seq<Outgoing> {
    if sent == [] then []
    else
      var front := Said(sent[..|sent| - 1]);
      if sent[|sent| - 1].Reply? then front else front + [sent[|sent| - 1]]
  }

  /** What its caller asked it to send: each request with its method and the next number, each notice, in order. */
  function Meant(events: seq<Event>): seq<Outgoing> {
    if events == [] then []
    else
      var front := Meant(events[..|events| - 1]);
      match events[|events| - 1]
      case Ask(name) => front + [Request(Asked(events, |events|), name)]
      case Tell(name) => front + [Notice(name)]
      case Arrive(_) => front
  }

  /** Requests and notices go out as they were asked for, once each, in order. */
  lemma {:induction false} SaysWhatWasMeant(events: seq<Event>)
    ensures Said(Run(events).sent) == Meant(events)
  {
    if events != [] {
      var front, e := events[..|events| - 1], events[|events| - 1];
      assert events == front + [e];
      SaysWhatWasMeant(front);
      IdsAreNeverReused(front);
      AskedPrefix(front, e, |front|);
      var was, now := Run(front).sent, Run(events).sent;
      assert now != was ==> now[..|now| - 1] == was;
    }
  }

  /** A request is pending exactly while it has been sent and not answered. */
  lemma {:induction false} PendingMeaning(events: seq<Event>, k: nat)
    ensures k in Run(events).pending <==> 1 <= k <= Asked(events, |events|) && !Answered(events, k)
  {
    if events != [] {
      var front, e := events[..|events| - 1], events[|events| - 1];
      assert events == front + [e];
      PendingMeaning(front, k);
      IdsAreNeverReused(front);
      AskedPrefix(front, e, |front|);
      AnswersPrefix(front, e, k);
      NotAnsweredYet(front, k);
    }
  }

  lemma NotAnsweredYet(events: seq<Event>, k: nat)
    ensures k > Asked(events, |events|) ==> !Answered(events, k)
  {
    forall i: nat | i <= |events| ensures Asked(events, i) <= Asked(events, |events|) {
      AskedGrows(events, i, |events|);
    }
  }

  lemma {:induction false} AskedGrows(events: seq<Event>, i: nat, j: nat)
    requires i <= j <= |events|
    ensures Asked(events, i) <= Asked(events, j)
  {
    if i < j { AskedGrows(events, i, j - 1); }
  }

  /** EACH REQUEST IS RESOLVED AT MOST ONCE, BY THE FIRST RESPONSE THAT CARRIES ITS ID, over every interleaving of
      sends, responses, notifications and server requests: no message with a method resolves one, whatever its id,
      nor does a response to an id not yet sent. */
  lemma {:induction false} ResolvedByFirstAnswer(events: seq<Event>, k: nat, msg: Incoming)
    ensures Settled(k, msg) in Run(events).settled <==>
      exists at: nat :: FirstAnswer(events, k, at) && events[at].msg == msg
  {
    if events != [] {
      var front, e := events[..|events| - 1], events[|events| - 1];
      assert events == front + [e];
      ResolvedByFirstAnswer(front, k, msg);
      PendingMeaning(front, k);
      AnswersPrefix(front, e, k);
      forall at: nat ensures FirstAnswer(events, k, at) ==> at <= |front| {}
      forall at: nat | at <= |front|
        ensures at < |front| ==> (FirstAnswer(events, k, at) <==> FirstAnswer(front, k, at)) {
        FirstAnswerPrefix(front, e, k, at);
      }
      FirstAnswerPrefix(front, e, k, |front|);
      if Settled(k, msg) in Run(front).settled {
        var at: nat :| FirstAnswer(front, k, at) && front[at].msg == msg;
        assert FirstAnswer(events, k, at) && events[at].msg == msg;
      }
      if Settled(k, msg) in Run(events).settled && Settled(k, msg) !in Run(front).settled {
        assert FirstAnswer(events, k, |front|) && events[|front|].msg == msg;
      }
    }
  }

  predicate SettledOnce(settled: seq<Settled>) {
    forall i, j | 0 <= i < j < |settled| :: settled[i].id != settled[j].id
  }

  /** No request is resolved twice. */
  lemma {:induction false} ResolvedAtMostOnce(events: seq<Event>)
    ensures SettledOnce(Run(events).settled)
    ensures forall x | x in Run(events).settled :: x.id !in Run(events).pending && x.id <= Run(events).last
  {
    if events != [] {
      var front := events[..|events| - 1];
      ResolvedAtMostOnce(front);
      PendingIsSent(front);
      var was := Run(front).settled;
      var now := Run(events).settled;
      forall i, j | 0 <= i < j < |now| ensures now[i].id != now[j].id {
        assert was[i] in was && now[i] == was[i];
        assert j < |was| ==> now[j] == was[j];
        assert j >= |was| ==> now[j].id in Run(front).pending;
      }
    }
  }

  lemma PendingIsSent(events: seq<Event>)
    ensures forall k | k in Run(events).pending :: k <= Run(events).last
  {
    forall k | k in Run(events).pending ensures k <= Run(events).last {
      PendingMeaning(events, k);
      IdsAreNeverReused(events);
    }
  }

  /** A server request whose id is that of a waiting request is answered and leaves it waiting. */
  lemma ServerRequestDoesNotResolve(events: seq<Event>, msg: Incoming, k: nat)
    requires msg.name != "" && msg.id == Some(Number(k)) && k in Run(events).pending
    ensures var s := Run(events + [Arrive(msg)]);
      && k in s.pending && s.settled == Run(events).settled
      && s.sent == Run(events).sent + [Reply(Number(k))]
  {
    assert (events + [Arrive(msg)])[..|events|] == events;
  }
}
