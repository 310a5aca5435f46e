/**
 What each request on a connection comes to, from the events alone: the messages received and
 how the calls awaited for them ended (src/main/lws/lws-service.js:35-342).
 */
module LwsOutcomes {
  import opened Wrappers
  import opened Sequences
  import opened Lws

  /** The requests received, in order. */
  function Received(events: seq<Event>): seq<Request> {
    if events == [] then []
    else Received(Init(events)) + if Last(events).Receives? then [Last(events).request] else []
  }

  /** How the calls awaited for request `n` ended, in order. */
  function Awaits(events: seq<Event>, n: nat): seq<bool> {
    if events == [] then []
    else Awaits(Init(events), n) + if Last(events).Resumes? && Last(events).n == n then [Last(events).ok] else []
  }

  predicate BothSucceeded(oks: seq<bool>) {
    |oks| >= 2 && oks[0] && oks[1]
  }

  /** Request `m` unlocked the key: its wallet was found, and `identity.unlock` succeeded. */
  ghost predicate UnlockedBy(events: seq<Event>, m: nat, key: string) {
    m < |Received(events)| && BothSucceeded(Awaits(events, m)) &&
    var r := Received(events)[m];
    r.kind.Unlock? && r.readable && r.publicKey == key
  }

  ghost predicate Unlocked(events: seq<Event>, key: string) {
    exists m :: UnlockedBy(events, m, key)
  }

  /** For each request, whether its key had been unlocked when it was received. */
  ghost function Knowns(events: seq<Event>): seq<bool> {
    if events == [] then []
    else
      var front, e := Init(events), Last(events);
      Knowns(front) + if e.Receives? then [Unlocked(front, e.request.publicKey)] else []
  }

  /** The response a request comes to, once enough of its calls have ended. */
  function Verdict(r: Request, known: bool, oks: seq<bool>): Option<Response> {
    match r.kind
    case Unknown(_) => Some(Response(true, ""))
    case Version => None
    case Missing => None
    case Wallets => if r.readable && oks == [true] then Some(Response(false, "")) else None
    case Unlock =>
      if !r.readable then None
      else if oks == [true, true, true] then Some(Response(false, "unlocked"))
      else if oks == [true, false] || oks == [true, true, false] then Some(Response(false, "locked"))
      else None
    case Attributes =>
      if !r.readable then None
      else if !known then Some(Response(true, "not_authorized"))
      else if oks == [true] then Some(Response(false, ""))
      else if oks == [false] then Some(Response(true, "attributes_error"))
      else None
    case Auth => LoginVerdict(r, known, oks, "token_error")
    case Signup => LoginVerdict(r, known, oks, "user_create_error")
  }

  function LoginVerdict(r: Request, known: bool, oks: seq<bool>, refusal: string): Option<Response> {
    if !r.readable then None
    else if !known then Some(Response(true, "not_authorized"))
    else if oks == [false] then Some(Response(true, "session_establish"))
    else if oks == [true, true] then Some(Response(false, ""))
    else if oks == [true, false] then Some(Response(true, refusal))
    else None
  }

  // The state after the events

  /** A handler waits where the calls that have ended have brought it. */
  ghost predicate Attends(phase: Phase, r: Request, known: bool, oks: seq<bool>) {
    r.readable &&
    match phase
    case FindingWallets => r.kind.Wallets? && oks == []
    case FindingWallet => r.kind.Unlock? && oks == []
    case Unlocking => r.kind.Unlock? && oks == [true]
    case CheckingSignup => r.kind.Unlock? && oks == [true, true]
    case FetchingAttributes => r.kind.Attributes? && known && oks == []
    case Establishing => Logged(r) && known && oks == []
    case Posting => Logged(r) && known && oks == [true]
    case Recording(response) => Logged(r) && Verdict(r, known, oks) == Some(response)
    case Sending(response) => Logged(r) && Verdict(r, known, oks) == Some(response)
  }

  ghost predicate Tracks(events: seq<Event>, s: State, n: nat) {
    (n in s.pending ==>
      n < |s.requests| && n < |Knowns(events)| && Attends(s.pending[n], s.requests[n], Knowns(events)[n], Awaits(events, n))) &&
    (n in s.lost ==>
      n < |s.requests| && n !in s.pending && (s.requests[n].kind.Wallets? || s.requests[n].kind.Unlock?) && Awaits(events, n) == [false]) &&
    (n >= |s.requests| ==> Awaits(events, n) == [])
  }

  ghost predicate Judged(events: seq<Event>, s: State, reply: Reply) {
    reply.request.Some? ==>
      var n := reply.request.value;
      n < |s.requests| && n < |Knowns(events)| && n !in s.pending &&
      Verdict(s.requests[n], Knowns(events)[n], Awaits(events, n)) == Some(reply.response)
  }

  ghost predicate Follows(events: seq<Event>, s: State) {
    s.requests == Received(events) && |Knowns(events)| == |s.requests| &&
    (forall key :: key in s.identities <==> Unlocked(events, key)) &&
    (forall n :: Tracks(events, s, n)) &&
    forall i :: 0 <= i < |s.replies| ==> Judged(events, s, s.replies[i])
  }

  /** One more event that is no await changes nobody's awaits. */
  lemma NoAwait(events: seq<Event>, e: Event)
    requires !e.Resumes?
    ensures forall n :: Awaits(events + [e], n) == Awaits(events, n)
    ensures Received(events + [e]) == Received(events) + if e.Receives? then [e.request] else []
    ensures Knowns(events + [e]) == Knowns(events) + if e.Receives? then [Unlocked(events, e.request.publicKey)] else []
  {
    assert Init(events + [e]) == events && Last(events + [e]) == e;
  }

  lemma OneAwait(events: seq<Event>, e: Event)
    requires e.Resumes?
    ensures forall n :: Awaits(events + [e], n) == if n == e.n then Awaits(events, n) + [e.ok] else Awaits(events, n)
    ensures Received(events + [e]) == Received(events) && Knowns(events + [e]) == Knowns(events)
  {
    assert Init(events + [e]) == events && Last(events + [e]) == e;
  }

  lemma SameUnlocks(events: seq<Event>, e: Event, key: string)
    requires !e.Resumes? && forall n :: n >= |Received(events)| ==> Awaits(events, n) == []
    ensures Unlocked(events + [e], key) <==> Unlocked(events, key)
  {
    NoAwait(events, e);
    forall m: nat
      ensures UnlockedBy(events + [e], m, key) <==> UnlockedBy(events, m, key)
    {
    }
  }

  lemma FollowsOther(events: seq<Event>, s: State, e: Event)
    requires Follows(events, s) && Enabled(s, e) && !e.Resumes? && !e.Receives?
    ensures Follows(events + [e], Step(s, e))
  {
    var t := Step(s, e);
    NoAwait(events, e);
    NoAwaitsYet(events, s);
    forall key { SameUnlocks(events, e, key); }
    forall n
      ensures Tracks(events + [e], t, n)
    {
      assert Tracks(events, s, n);
    }
    forall i | 0 <= i < |t.replies|
      ensures Judged(events + [e], t, t.replies[i])
    {
      assert i < |s.replies| ==> Judged(events, s, s.replies[i]);
      assert e.Sends? ==> Tracks(events, s, e.n);
    }
  }

  lemma NoAwaitsYet(events: seq<Event>, s: State)
    requires Follows(events, s)
    ensures forall n :: n >= |Received(events)| ==> Awaits(events, n) == []
  {
    forall n | n >= |Received(events)|
      ensures Awaits(events, n) == []
    {
      assert Tracks(events, s, n);
    }
  }

  lemma FollowsReceived(events: seq<Event>, s: State, e: Event)
    requires Follows(events, s) && e.Receives?
    ensures Follows(events + [e], Step(s, e))
  {
    NoAwait(events, e);
    NoAwaitsYet(events, s);
    forall key { SameUnlocks(events, e, key); }
    forall n { ReceivedTracks(events, s, e, n); }
    ReceivedJudged(events, s, e);
  }

  lemma ReceivedTracks(events: seq<Event>, s: State, e: Event, n: nat)
    requires Follows(events, s) && e.Receives?
    ensures Tracks(events + [e], Step(s, e), n)
  {
    NoAwait(events, e);
    assert Tracks(events, s, n);
    if n == |s.requests| {
      ReceivedTracksOwn(events, s, e);
    } else {
      ReceivedElsewhere(s, e, n);
    }
  }

  /** Receiving a request touches no other request. */
  lemma ReceivedElsewhere(s: State, e: Event, n: nat)
    requires e.Receives? && n != |s.requests|
    ensures var t := Step(s, e);
      |t.requests| == |s.requests| + 1 && (n < |s.requests| ==> t.requests[n] == s.requests[n]) && t.lost == s.lost &&
      (n in t.pending <==> n in s.pending) && (n in s.pending ==> t.pending[n] == s.pending[n])
  {
  }

  lemma ReceivedTracksOwn(events: seq<Event>, s: State, e: Event)
    requires Follows(events, s) && e.Receives? && |s.requests| !in s.pending && |s.requests| !in s.lost
    ensures Tracks(events + [e], Step(s, e), |s.requests|)
  {
    var n, t, known := |s.requests|, Step(s, e), Unlocked(events, e.request.publicKey);
    assert Tracks(events, s, n);
    NoAwait(events, e);
    assert t.requests[n] == e.request && n !in t.lost && Knowns(events + [e])[n] == known;
    ReceivedAttends(s, e, known);
  }

  /** The first call of a handler. */
  lemma ReceivedAttends(s: State, e: Event, known: bool)
    requires e.Receives? && |s.requests| !in s.pending && (known <==> e.request.publicKey in s.identities)
    ensures |s.requests| in Step(s, e).pending ==> Attends(Step(s, e).pending[|s.requests|], e.request, known, [])
  {
  }

  lemma ReceivedJudged(events: seq<Event>, s: State, e: Event)
    requires Follows(events, s) && e.Receives?
    ensures forall i :: 0 <= i < |Step(s, e).replies| ==> Judged(events + [e], Step(s, e), Step(s, e).replies[i])
  {
    var t := Step(s, e);
    forall i | 0 <= i < |t.replies|
      ensures Judged(events + [e], t, t.replies[i])
    {
      if i < |s.replies| {
        assert t.replies[i] == s.replies[i];
        StillJudged(events, s, e, s.replies[i]);
      } else {
        ReceivedJudgedOwn(events, s, e);
      }
    }
  }

  /** An earlier reply is right as long as its request is not resumed, and it cannot be. */
  lemma StillJudged(events: seq<Event>, s: State, e: Event, reply: Reply)
    requires Follows(events, s) && Enabled(s, e) && Judged(events, s, reply)
    ensures Judged(events + [e], Step(s, e), reply)
  {
    if e.Resumes? {
      OneAwait(events, e);
    } else {
      NoAwait(events, e);
    }
    if reply.request.Some? {
      Untouched(s, e, reply.request.value);
    }
  }

  /** A step touches only the request it is about. */
  lemma Untouched(s: State, e: Event, n: nat)
    requires Enabled(s, e) && n < |s.requests| && match e
      case Resumes(m, _) => m != n
      case Records(m, _) => m != n
      case Sends(m) => m != n
      case _ => true
    ensures var t := Step(s, e);
      n < |t.requests| && t.requests[n] == s.requests[n] && (n in t.lost <==> n in s.lost) &&
      (n in t.pending <==> n in s.pending) && (n in s.pending ==> t.pending[n] == s.pending[n])
  {
    match e {
      case Receives(_) => ReceivedElsewhere(s, e, n);
      case Resumes(_, _) => ResumedElsewhere(s, e, n);
      case _ => OtherElsewhere(s, e, n);
    }
  }

  lemma OtherElsewhere(s: State, e: Event, n: nat)
    requires !e.Receives? && !e.Resumes? && Enabled(s, e) && (e.Records? || e.Sends? ==> e.n != n)
    ensures var t := Step(s, e);
      t.requests == s.requests && t.lost == s.lost &&
      (n in t.pending <==> n in s.pending) && (n in s.pending ==> t.pending[n] == s.pending[n])
  {
  }

  lemma ReceivedJudgedOwn(events: seq<Event>, s: State, e: Event)
    requires Follows(events, s) && e.Receives?
    ensures var t := Step(s, e); |t.replies| > |s.replies| ==> |t.replies| == |s.replies| + 1 && Judged(events + [e], t, Last(t.replies))
  {
    NoAwait(events, e);
    assert Tracks(events, s, |s.requests|);
  }

  /** A successful unlock adds its key, and no other event adds one. */
  lemma ResumedUnlocks(events: seq<Event>, s: State, e: Event, key: string)
    requires e.Resumes? && Enabled(s, e) && Follows(events, s)
    ensures Unlocked(events + [e], key) <==>
      Unlocked(events, key) || (e.ok && s.pending[e.n].Unlocking? && s.requests[e.n].publicKey == key)
  {
    OneAwait(events, e);
    assert Tracks(events, s, e.n);
    TwoTrue(Awaits(events, e.n), e.ok);
    forall m: nat
      ensures UnlockedBy(events + [e], m, key) <==>
        UnlockedBy(events, m, key) || (m == e.n && e.ok && s.pending[m].Unlocking? && s.requests[m].publicKey == key)
    {
      assert m != e.n ==> Awaits(events + [e], m) == Awaits(events, m);
    }
    if e.ok && s.pending[e.n].Unlocking? && s.requests[e.n].publicKey == key {
      assert UnlockedBy(events + [e], e.n, key);
    }
  }

  /** Both first calls succeeded, once one more has ended. */
  lemma TwoTrue(oks: seq<bool>, ok: bool)
    ensures BothSucceeded(oks + [ok]) <==> BothSucceeded(oks) || (oks == [true] && ok)
  {
  }

  /** What a handler waiting after `oks` comes to when its call ends with `ok`. */
  lemma Moves(phase: Phase, r: Request, known: bool, oks: seq<bool>, ok: bool)
    requires Attends(phase, r, known, oks) && !phase.Recording? && !phase.Sending?
    ensures match phase
      case FindingWallets => oks + [ok] == [ok] && (ok ==> Verdict(r, known, oks + [ok]) == Some(Response(false, "")))
      case FindingWallet => oks + [ok] == [ok]
      case Unlocking => oks + [ok] == [true, ok] && (!ok ==> Verdict(r, known, oks + [ok]) == Some(Response(false, "locked")))
      case CheckingSignup => Verdict(r, known, oks + [ok]) == Some(Response(false, if ok then "unlocked" else "locked"))
      case FetchingAttributes =>
        Verdict(r, known, oks + [ok]) == Some(if ok then Response(false, "") else Response(true, "attributes_error"))
      case Establishing =>
        oks + [ok] == [ok] && (!ok ==> Verdict(r, known, oks + [ok]) == Some(Response(true, "session_establish")))
      case Posting => Verdict(r, known, oks + [ok]) == Some(Posted(r, ok))
  {
    assert [] + [ok] == [ok] && [true] + [ok] == [true, ok] && [true, true] + [ok] == [true, true, ok];
    assert !ok ==> [true, ok] == [true, false] && [true, true, ok] == [true, true, false];
    assert [true, ok][1] == ok && [true, true, ok][2] == ok;
  }

  lemma FollowsResumed(events: seq<Event>, s: State, e: Event)
    requires e.Resumes? && Enabled(s, e) && Follows(events, s)
    ensures Follows(events + [e], Step(s, e))
  {
    OneAwait(events, e);
    ResumedIdentities(events, s, e);
    forall n { ResumedTracks(events, s, e, n); }
    ResumedJudged(events, s, e);
  }

  lemma ResumedIdentities(events: seq<Event>, s: State, e: Event)
    requires e.Resumes? && Enabled(s, e) && Follows(events, s)
    ensures Step(s, e).requests == s.requests
    ensures forall key :: key in Step(s, e).identities <==> Unlocked(events + [e], key)
  {
    forall key { ResumedUnlocks(events, s, e, key); }
  }

  lemma ResumedTracks(events: seq<Event>, s: State, e: Event, n: nat)
    requires e.Resumes? && Enabled(s, e) && Follows(events, s)
    ensures Tracks(events + [e], Step(s, e), n)
  {
    assert Tracks(events, s, n);
    if n == e.n {
      ResumedTracksOwn(events, s, e);
    } else {
      OneAwait(events, e);
      ResumedElsewhere(s, e, n);
    }
  }

  lemma ResumedElsewhere(s: State, e: Event, n: nat)
    requires e.Resumes? && Enabled(s, e) && n != e.n
    ensures var t := Step(s, e);
      t.requests == s.requests && (n in t.lost <==> n in s.lost) &&
      (n in t.pending <==> n in s.pending) && (n in s.pending ==> t.pending[n] == s.pending[n])
  {
  }

  lemma ResumedTracksOwn(events: seq<Event>, s: State, e: Event)
    requires e.Resumes? && Enabled(s, e) && Tracks(events, s, e.n)
    ensures Tracks(events + [e], Step(s, e), e.n)
  {
    OneAwait(events, e);
    Moves(s.pending[e.n], s.requests[e.n], Knowns(events)[e.n], Awaits(events, e.n), e.ok);
  }

  lemma ResumedJudged(events: seq<Event>, s: State, e: Event)
    requires e.Resumes? && Enabled(s, e) && Follows(events, s)
    ensures forall i :: 0 <= i < |Step(s, e).replies| ==> Judged(events + [e], Step(s, e), Step(s, e).replies[i])
  {
    var t := Step(s, e);
    forall i | 0 <= i < |t.replies|
      ensures Judged(events + [e], t, t.replies[i])
    {
      if i < |s.replies| {
        assert Judged(events, s, s.replies[i]) && t.replies[i] == s.replies[i];
        assert Tracks(events, s, e.n);
        StillJudged(events, s, e, s.replies[i]);
      } else {
        ResumedJudgedOwn(events, s, e);
      }
    }
  }

  lemma ResumedJudgedOwn(events: seq<Event>, s: State, e: Event)
    requires e.Resumes? && Enabled(s, e) && Follows(events, s)
    ensures var t := Step(s, e); |t.replies| > |s.replies| ==> |t.replies| == |s.replies| + 1 && Judged(events + [e], t, Last(t.replies))
  {
    OneAwait(events, e);
    assert Tracks(events, s, e.n);
    Moves(s.pending[e.n], s.requests[e.n], Knowns(events)[e.n], Awaits(events, e.n), e.ok);
  }

  lemma {:induction false} RunFollows(events: seq<Event>)
    requires Runnable(INITIAL, events)
    ensures Follows(events, Run(INITIAL, events))
    decreases |events|
  {
    if events != [] {
      var front, e := Init(events), Last(events);
      var s := Run(INITIAL, front);
      RunFollows(front);
      assert events == front + [e];
      match e {
        case Receives(_) => FollowsReceived(front, s, e);
        case Resumes(_, _) => FollowsResumed(front, s, e);
        case _ => FollowsOther(front, s, e);
      }
    }
  }

  /**
   Over every run, a request that is no longer in flight has been answered with exactly the
   response its kind, its key and its awaited calls come to, and not at all if they come to none.
   */
  lemma Outcomes(events: seq<Event>, n: nat, response: Response)
    requires Runnable(INITIAL, events) && n < |Received(events)|
    ensures var s := Run(INITIAL, events);
      s.requests == Received(events) && |Knowns(events)| == |Received(events)| &&
      (n !in s.pending ==>
        (AnsweredWith(s, n, response) <==> Verdict(Received(events)[n], Knowns(events)[n], Awaits(events, n)) == Some(response)))
  {
    RunFollows(events);
    RunKeeps(INITIAL, events);
    if n !in Run(INITIAL, events).pending {
      Judgement(events, Run(INITIAL, events), n, response);
    }
  }

  lemma Judgement(events: seq<Event>, s: State, n: nat, response: Response)
    requires Inv(s) && Follows(events, s) && n < |s.requests| && n !in s.pending
    ensures AnsweredWith(s, n, response) <==> Verdict(s.requests[n], Knowns(events)[n], Awaits(events, n)) == Some(response)
  {
    assert Tracks(events, s, n);
    var verdict := Verdict(s.requests[n], Knowns(events)[n], Awaits(events, n));
    forall i | 0 <= i < |s.replies| && s.replies[i].request == Some(n)
      ensures verdict == Some(s.replies[i].response)
    {
      assert Judged(events, s, s.replies[i]);
    }
    if verdict.Some? {
      assert Owed(s.requests[n]) && n !in s.lost;
      assert Answered(s, n);
    }
  }

  /** The keys on the connection are those whose wallet was found and whose unlock succeeded. */
  lemma IdentitiesAreUnlocked(events: seq<Event>, key: string)
    requires Runnable(INITIAL, events)
    ensures key in Run(INITIAL, events).identities <==> Unlocked(events, key)
  {
    RunFollows(events);
  }

  // Success needs an unlock

  /** Event `j` is the success of an `identity.unlock` for this key. */
  ghost predicate UnlockEvent(events: seq<Event>, j: nat, key: string) {
    j < |events| && Runnable(INITIAL, events[..j]) && events[j].Resumes? && events[j].ok &&
    var s, n := Run(INITIAL, events[..j]), events[j].n;
    n < |s.requests| && n in s.pending && s.pending[n] == Unlocking &&
    s.requests[n].kind.Unlock? && s.requests[n].publicKey == key
  }

  lemma EarlierUnlock(events: seq<Event>, j: nat, key: string)
    requires events != [] && UnlockEvent(Init(events), j, key)
    ensures UnlockEvent(events, j, key) && events[..j] == Init(events)[..j]
  {
    assert events[..j] == Init(events)[..j];
  }

  /** A key on the connection, or ever unlocked on it, was unlocked by an earlier event. */
  lemma {:induction false} UnlockHappened(events: seq<Event>, key: string) returns (j: nat)
    requires Runnable(INITIAL, events)
    requires key in Run(INITIAL, events).identities || key in Run(INITIAL, events).unlocks
    ensures UnlockEvent(events, j, key)
    decreases |events|
  {
    var front := Init(events);
    var s := Run(INITIAL, front);
    if key in s.identities || key in s.unlocks {
      j := UnlockHappened(front, key);
      EarlierUnlock(events, j, key);
    } else {
      j := |front|;
      RunFollows(front);
      assert events[..j] == front;
      assert Last(events).Resumes? ==> Tracks(front, s, Last(events).n);
    }
  }

  lemma {:induction false} RepliesGrow(events: seq<Event>, j: nat)
    requires Runnable(INITIAL, events) && j <= |events|
    ensures Runnable(INITIAL, events[..j]) && |Run(INITIAL, events[..j]).replies| <= |Run(INITIAL, events).replies|
    decreases |events|
  {
    if j == |events| {
      assert events[..j] == events;
    } else {
      assert events[..j] == Init(events)[..j];
      RepliesGrow(Init(events), j);
      StepAppends(Run(INITIAL, Init(events)), Last(events));
    }
  }

  lemma StepAppends(s: State, e: Event)
    requires Enabled(s, e)
    ensures s.replies <= Step(s, e).replies && s.requests <= Step(s, e).requests
  {
  }

  /**
   A successful attributes, auth or signup reply for a key comes after the success of an unlock of
   that key on the same connection.
   */
  lemma {:induction false} SuccessNeedsUnlock(events: seq<Event>, i: nat) returns (j: nat)
    requires Runnable(INITIAL, events) && i < |Run(INITIAL, events).replies|
    requires var s := Run(INITIAL, events);
      var reply := s.replies[i];
      reply.request.Some? && !reply.response.error && reply.request.value < |s.requests| && NeedsUnlock(s.requests[reply.request.value])
    ensures var s := Run(INITIAL, events);
      UnlockEvent(events, j, s.requests[s.replies[i].request.value].publicKey) && |Run(INITIAL, events[..j]).replies| <= i
    decreases |events|
  {
    var front, s := Init(events), Run(INITIAL, events);
    var before := Run(INITIAL, front);
    StepAppends(before, Last(events));
    var n := s.replies[i].request.value;
    if i < |before.replies| {
      ReplyKnown(front, i);
      j := SuccessNeedsUnlock(front, i);
      EarlierUnlock(events, j, s.requests[n].publicKey);
    } else {
      ReplyKnown(events, i);
      j := UnlockHappened(events, s.requests[n].publicKey);
      assert events[..j] == front[..j];
      RepliesGrow(front, j);
    }
  }

  lemma ReplyKnown(events: seq<Event>, i: nat)
    requires Runnable(INITIAL, events) && i < |Run(INITIAL, events).replies|
    ensures var s := Run(INITIAL, events);
      var reply := s.replies[i];
      reply.request.Some? ==>
        var n := reply.request.value;
        n < |s.requests| && (NeedsUnlock(s.requests[n]) && !reply.response.error ==> s.requests[n].publicKey in s.unlocks)
  {
    RunKeeps(INITIAL, events);
    var s := Run(INITIAL, events);
    assert GoodReply(s, s.replies[i]);
  }

  /**
   An unlock is answered `unlocked` only if the password was right and the signup check succeeded;
   if either failed it is answered `locked`, and a wrong password puts no key on the connection.
   */
  lemma UnlockReplies(events: seq<Event>, n: nat, response: Response)
    requires Runnable(INITIAL, events) && n < |Received(events)| && n !in Run(INITIAL, events).pending
    requires Received(events)[n].kind.Unlock? && AnsweredWith(Run(INITIAL, events), n, response)
    ensures response == Response(false, "unlocked") <==> Awaits(events, n) == [true, true, true]
    ensures response == Response(false, "locked") <==> Awaits(events, n) == [true, false] || Awaits(events, n) == [true, true, false]
    ensures UnlockedBy(events, n, Received(events)[n].publicKey) <==> Awaits(events, n) != [true, false]
  {
    Outcomes(events, n, response);
    var oks := Awaits(events, n);
    assert oks == [true, false] ==> oks[1] != [true, true][1];
  }
}
