/**
 The request/reply handshake of the DIF client.  A mutex is used as a semaphore: it is locked when the
 RPC object is made, `doIt` sends the request and then locks it again, which blocks until the reply
 handler, on a thread of the transport, has stored the reply and unlocked it.
 */
module RpcHandshake {

  datatype Handler = Resting | Stored

  /**
   The RPC object, its caller and the server.  `requests` and `answers` are what was sent and what was
   sent back, `handled` counts the replies whose handler has run, `returned` the calls that came back.
   */
  datatype State = State(
    locked: bool,
    waiting: bool,
    handler: Handler,
    rc: int,
    requests: seq<int>,
    answers: seq<int>,
    handled: nat,
    returned: nat)

  /** The constructor has locked the semaphore; the reply field is not initialised. */
  predicate Init(s: State) {
    s.locked && !s.waiting && s.handler == Resting && s.requests == [] && s.answers == [] && s.handled == 0 && s.returned == 0
  }

  datatype Step = Send(d: int) | Answer(v: int) | Store | Unlock | Return

  /** The object cannot tell whether it asked for an answer, so one may come at any time. */
  predicate Enabled(s: State, e: Step) {
    match e
    case Send(_) => !s.waiting
    case Answer(_) => true
    case Store => s.handler == Resting && s.handled < |s.answers|
    case Unlock => s.handler == Stored
    case Return => s.waiting && !s.locked
  }

  /**
   `Send` and `Return` are the two halves of `doIt`, `Store` and `Unlock` those of `rpcInfoHandler`,
   and `Answer` is the server.
   */
  function Next(s: State, e: Step): State
    requires Enabled(s, e)
  {
    match e
    case Send(d) => s.(waiting := true, requests := s.requests + [d])
    case Answer(v) => s.(answers := s.answers + [v])
    case Store => s.(handler := Stored, rc := s.answers[s.handled])
    case Unlock => s.(handler := Resting, locked := false, handled := s.handled + 1)
    case Return => s.(locked := true, waiting := false, returned := s.returned + 1)
  }

  /** A run: each step is enabled where it is taken. */
  predicate Runs(s: State, steps: seq<Step>)
    decreases |steps|, 0
  {
    steps == [] || (Runs(s, steps[..|steps| - 1]) && Enabled(After(s, steps[..|steps| - 1]), steps[|steps| - 1]))
  }

  function After(s: State, steps: seq<Step>): State
    requires Runs(s, steps)
    decreases |steps|, 1
  {
    if steps == [] then s else Next(After(s, steps[..|steps| - 1]), steps[|steps| - 1])
  }

  lemma RunsOn(s: State, steps: seq<Step>, e: Step) returns (more: seq<Step>)
    requires Runs(s, steps) && Enabled(After(s, steps), e)
    ensures more == steps + [e] && Runs(s, more) && After(s, more) == Next(After(s, steps), e)
  {
    more := steps + [e];
    assert more[..|steps|] == steps;
  }

  function Count(steps: seq<Step>, e: Step): nat {
    if steps == [] then 0
    else Count(steps[..|steps| - 1], e) + (if steps[|steps| - 1] == e then 1 else 0)
  }

  lemma {:induction false} CountersCount(s: State, steps: seq<Step>)
    requires Init(s) && Runs(s, steps)
    ensures After(s, steps).handled == Count(steps, Unlock) && After(s, steps).returned == Count(steps, Return)
    decreases |steps|
  {
    if steps == [] {
    } else {
      CountersCount(s, steps[..|steps| - 1]);
    }
  }

  // ---------- one reply per request ----------

  /** A run in which the server sends no more answers than it has had requests. */
  predicate OneReplyEach(s: State, steps: seq<Step>)
    requires Runs(s, steps)
    decreases |steps|
  {
    steps == [] ||
    (OneReplyEach(s, steps[..|steps| - 1]) && Awaited(After(s, steps[..|steps| - 1]), steps[|steps| - 1]))
  }

  /** If the step is an answer, there is a request without one. */
  predicate Awaited(s: State, e: Step) {
    e.Answer? ==> |s.answers| < |s.requests|
  }

  /** Where a call can be between `Send` and `Return`. */
  ghost predicate Inv(s: State) {
    && s.returned <= s.handled <= |s.answers| <= |s.requests| <= s.returned + 1
    && (s.waiting <==> |s.requests| == s.returned + 1)
    && (s.locked <==> s.handled == s.returned)
    && (s.handler == Stored ==> s.handled < |s.answers| && s.rc == s.answers[s.handled])
    && (s.handler == Resting && s.handled > 0 ==> s.rc == s.answers[s.handled - 1])
  }

  lemma StepKeepsInv(s: State, e: Step)
    requires Inv(s) && Enabled(s, e) && Awaited(s, e)
    ensures Inv(Next(s, e))
  {
  }

  lemma {:induction false} RunKeepsInv(s: State, steps: seq<Step>)
    requires Init(s) && Runs(s, steps) && OneReplyEach(s, steps)
    ensures Inv(After(s, steps))
    decreases |steps|
  {
    if steps == [] {
    } else {
      RunKeepsInv(s, steps[..|steps| - 1]);
      StepKeepsInv(After(s, steps[..|steps| - 1]), steps[|steps| - 1]);
    }
  }

  /**
   In every interleaving with one reply per request: as many handlers have run as calls have come back, or one
   more, so the n-th call comes back only after the n-th reply; and whenever the caller is between calls, the
   semaphore is held, the number of calls is that of replies, and the value to be read is the last reply.
   */
  lemma HandshakeIsSafe(s: State, steps: seq<Step>)
    requires Init(s) && Runs(s, steps) && OneReplyEach(s, steps)
    ensures Count(steps, Return) <= Count(steps, Unlock) <= Count(steps, Return) + 1
    ensures var t := After(s, steps);
            !t.waiting ==>
              && t.locked && t.handler == Resting
              && Count(steps, Return) == Count(steps, Unlock) == |t.requests| == |t.answers|
              && (t.answers != [] ==> t.rc == t.answers[|t.answers| - 1])
  {
    RunKeepsInv(s, steps);
    CountersCount(s, steps);
  }

  /** The handler never unlocks a semaphore that is not locked. */
  lemma UnlocksOnlyWhenLocked(s: State, steps: seq<Step>)
    requires Init(s) && Runs(s, steps) && OneReplyEach(s, steps) && Enabled(After(s, steps), Unlock)
    ensures After(s, steps).locked
  {
    RunKeepsInv(s, steps);
  }

  /** How many steps a call still needs. */
  ghost function Remaining(s: State): nat {
    if !s.waiting then 0
    else if !s.locked then 1
    else if s.handler == Stored then 2
    else if s.handled < |s.answers| then 3
    else 4
  }

  /** A caller that waits is never stuck: an awaited step is enabled, and every such step brings it closer. */
  lemma WaitingMakesProgress(s: State, steps: seq<Step>)
    requires Init(s) && Runs(s, steps) && OneReplyEach(s, steps) && After(s, steps).waiting
    ensures exists e :: Enabled(After(s, steps), e) && Awaited(After(s, steps), e)
    ensures forall e :: Enabled(After(s, steps), e) && Awaited(After(s, steps), e) ==>
              Remaining(Next(After(s, steps), e)) == Remaining(After(s, steps)) - 1
  {
    RunKeepsInv(s, steps);
    var t := After(s, steps);
    if !t.locked {
      assert Enabled(t, Return) && Awaited(t, Return);
    } else if t.handler == Stored {
      assert Enabled(t, Unlock) && Awaited(t, Unlock);
    } else if t.handled < |t.answers| {
      assert Enabled(t, Store) && Awaited(t, Store);
    } else {
      assert Enabled(t, Answer(0)) && Awaited(t, Answer(0));
    }
  }

  // ---------- answers that nobody asked for ----------

  /** No answer arrives. */
  predicate Silent(steps: seq<Step>) {
    forall i | 0 <= i < |steps| :: !steps[i].Answer?
  }

  /** What an earlier reply has left behind: an open semaphore, or a reply that will open it. */
  predicate Leftover(s: State) {
    !s.locked || s.handler == Stored || s.handled < |s.answers|
  }

  /** The call that the caller makes next can come back although no answer arrives any more. */
  ghost predicate CanReturnUnanswered(s: State, d: int)
    requires !s.waiting
  {
    exists more :: Runs(Next(s, Send(d)), more) && Silent(more) && After(Next(s, Send(d)), more).returned > s.returned
  }

  lemma {:induction false} NothingComesBack(s: State, more: seq<Step>)
    requires s.waiting && !Leftover(s) && Runs(s, more) && Silent(more)
    ensures more == []
    decreases |more|
  {
    if more != [] {
      NothingComesBack(s, more[..|more| - 1]);
    }
  }

  lemma LeftoverOpens(s: State) returns (more: seq<Step>)
    requires s.waiting && Leftover(s)
    ensures Runs(s, more) && Silent(more) && After(s, more).returned == s.returned + 1
  {
    more := [];
    if s.locked && s.handler == Resting {
      more := SilentlyOn(s, more, Store);
      assert After(s, more).handler == Stored;
    }
    if s.locked {
      more := SilentlyOn(s, more, Unlock);
      assert !After(s, more).locked;
    }
    more := SilentlyOn(s, more, Return);
  }

  lemma SilentlyOn(s: State, steps: seq<Step>, e: Step) returns (more: seq<Step>)
    requires Runs(s, steps) && Silent(steps) && Enabled(After(s, steps), e) && !e.Answer?
    ensures Runs(s, more) && Silent(more) && After(s, more) == Next(After(s, steps), e)
  {
    more := RunsOn(s, steps, e);
  }

  /**
   Whatever has arrived before: the next call can come back without an answer of its own exactly when an
   earlier reply has left something behind, which can be seen before the call.
   */
  lemma EarlyReturnCondition(s: State, d: int)
    requires !s.waiting
    ensures CanReturnUnanswered(s, d) <==> Leftover(s)
  {
    var t := Next(s, Send(d));
    if Leftover(s) {
      var more := LeftoverOpens(t);
    } else {
      forall more | Runs(t, more) && Silent(more)
        ensures After(t, more).returned == s.returned
      {
        NothingComesBack(t, more);
      }
    }
  }

  /** With one reply per request nothing is ever left behind between calls. */
  lemma NothingLeftOver(s: State, steps: seq<Step>, d: int)
    requires Init(s) && Runs(s, steps) && OneReplyEach(s, steps) && !After(s, steps).waiting
    ensures !CanReturnUnanswered(After(s, steps), d)
  {
    RunKeepsInv(s, steps);
    EarlyReturnCondition(After(s, steps), d);
  }

  /** An answer before any request, and the first call, with the value of that answer. */
  function EarlyRun(v: int, d: int): seq<Step> {
    [Answer(v), Store, Unlock, Send(d), Return]
  }

  /** So one answer too many is enough: the first call comes back, and no answer has followed its request. */
  lemma UnsolicitedReplyBreaksTheHandshake(s: State, v: int, d: int)
    requires Init(s)
    ensures Runs(s, EarlyRun(v, d)) && !OneReplyEach(s, EarlyRun(v, d))
    ensures After(s, EarlyRun(v, d)).returned == 1 && After(s, EarlyRun(v, d)).rc == v
  {
    var steps1 := RunsOn(s, [], Answer(v));
    assert steps1[..0] == [] && !OneReplyEach(s, steps1);
    var steps2 := SurplusOn(s, steps1, Store);
    var steps3 := SurplusOn(s, steps2, Unlock);
    var steps4 := SurplusOn(s, steps3, Send(d));
    var steps5 := SurplusOn(s, steps4, Return);
    assert steps5 == EarlyRun(v, d);
  }

  lemma SurplusOn(s: State, steps: seq<Step>, e: Step) returns (more: seq<Step>)
    requires Runs(s, steps) && !OneReplyEach(s, steps) && Enabled(After(s, steps), e)
    ensures more == steps + [e] && Runs(s, more) && !OneReplyEach(s, more) && After(s, more) == Next(After(s, steps), e)
  {
    more := RunsOn(s, steps, e);
    assert more[..|steps|] == steps;
  }

  // ---------- the object ----------

  /** `RpcDIFClient::initialise` and its likes: `configure`, `start`, `stop`, `destroy`, `registerDB`. */
  class Rpc {
    var sem: bool
    var rc: int
    /** What has been handed to the transport. */
    var sent: seq<int>
    ghost var view: State

    /** The object is that of the view, which a run with one reply per request can reach. */
    ghost predicate Valid()
      reads this
    {
      view.locked == sem && view.rc == rc && view.requests == sent && Inv(view)
    }

    constructor ()
      ensures Valid() && Init(view)
    {
      sem := true;
      rc := 0;
      sent := [];
      view := State(true, false, Resting, 0, [], [], 0, 0);
    }

    /** The first half of `doIt`, `setData`: every earlier request has its answer, so the second half has to wait. */
    method SetData(d: int)
      requires Valid() && Enabled(view, Send(d))
      modifies this
      ensures Valid() && view == Next(old(view), Send(d))
      ensures sent == old(sent) + [d] && |view.answers| == |old(sent)|
      ensures !Enabled(view, Return) && !Leftover(view)
    {
      StepKeepsInv(view, Send(d));
      sent := sent + [d];
      view := Next(view, Send(d));
    }

    /** The server answers the oldest request that has no answer. */
    ghost method ServerAnswers(v: int)
      requires Valid() && |view.answers| < |sent|
      modifies this`view
      ensures Valid() && view == Next(old(view), Answer(v))
    {
      StepKeepsInv(view, Answer(v));
      view := Next(view, Answer(v));
    }

    /** The second half of `doIt`: `_sem.lock()`, which goes through exactly when the reply to this call has been handled. */
    method Lock() returns (through: bool)
      requires Valid() && view.waiting
      modifies this
      ensures Valid() && (through <==> old(view.handled) == |old(sent)|)
      ensures view == if through then Next(old(view), Return) else old(view)
    {
      through := !sem;
      if through {
        StepKeepsInv(view, Return);
        sem := true;
        view := Next(view, Return);
      }
    }

    /** `rpcInfoHandler`, with the two steps taken one after the other. */
    method RpcInfoHandler(v: int)
      requires Valid() && Enabled(view, Store) && view.answers[view.handled] == v
      modifies this
      ensures Valid() && Enabled(Next(old(view), Store), Unlock)
      ensures view == Next(Next(old(view), Store), Unlock)
    {
      StepKeepsInv(view, Store);
      rc := v;
      view := Next(view, Store);
      StepKeepsInv(view, Unlock);
      sem := false;
      view := Next(view, Unlock);
    }

    /** Between calls the value is the answer to the last request. */
    method Value() returns (v: int)
      requires Valid() && !view.waiting && sent != []
      ensures |view.answers| == |sent| && v == view.answers[|sent| - 1]
    {
      v := rc;
    }

    /** A whole call, the server answering `v` while the caller waits. */
    method Call(d: int, v: int) returns (r: int)
      requires Valid() && !view.waiting
      modifies this
      ensures Valid() && !view.waiting && sent == old(sent) + [d] && view.answers == old(view.answers) + [v]
      ensures r == v
    {
      SetData(d);
      ServerAnswers(v);
      RpcInfoHandler(v);
      var through := Lock();
      r := Value();
    }
  }
}
