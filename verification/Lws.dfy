/**
 Requests on one websocket connection (src/main/lws/lws-service.js:35-342, 370-430). Handlers are
 asynchronous, so several are in flight at a time; each is followed from await to await, and
 what an await resolves to is a parameter of the step.
 */
module Lws {
  import opened Wrappers
  import opened Sequences
  import opened Numerals

  /** `Missing` is a message that is no object at all: a JSON `null`. */
  datatype Kind = Wallets | Unlock | Attributes | Auth | Signup | Version | Missing | Unknown(name: string)

  /**
   A parsed message. An empty `id` is a missing one; `attributes` counts the signup attributes;
   `readable` says that the handler can take its payload apart.
   */
  datatype Request = Request(kind: Kind, id: string, readable: bool, publicKey: string, attributes: nat)

  datatype Response = Response(error: bool, code: string)

  /** A message sent: in answer to request `request`, or to an unparsable message. */
  datatype Reply = Reply(request: Option<nat>, name: string, id: string, minted: Option<nat>, response: Response)

  /** Where the handler of a request waits. */
  datatype Phase =
    | FindingWallets
    | FindingWallet
    | Unlocking
    | CheckingSignup
    | FetchingAttributes
    | Establishing
    | Posting
    | Recording(response: Response)
    | Sending(response: Response)

  datatype Attempt = Attempt(request: nat, signup: bool, success: bool, code: string)

  /**
   The connection with its history: requests received, replies, unlocks, the login log, and the
   requests whose wallet look-up failed outside any `try`.
   */
  datatype State = State(
    identities: set<string>,
    msgId: nat,
    requests: seq<Request>,
    pending: map<nat, Phase>,
    replies: seq<Reply>,
    unlocks: seq<string>,
    attempts: seq<Attempt>,
    unrecorded: set<nat>,
    lost: set<nat>)

  /** `ok` is whether the awaited call succeeded, `written` whether the attempt reached the log. */
  datatype Event =
    | Garbled
    | Receives(request: Request)
    | Resumes(n: nat, ok: bool)
    | Records(n: nat, written: bool)
    | Sends(n: nat)

  const INITIAL := State({}, 0, [], map[], [], [], [], {}, {})

  const NOT_AUTHORIZED := Response(true, "not_authorized")

  const INVALID_MESSAGE := Response(true, "invalid_message")

  function KindName(k: Kind): string {
    match k
    case Wallets => "wallets"
    case Unlock => "unlock"
    case Attributes => "attributes"
    case Auth => "auth"
    case Signup => "signup"
    case Version => "version"
    case Missing => ""
    case Unknown(name) => name
  }

  /** `idw-${n}` */
  function MintedId(n: nat): string {
    "idw-" + Numeral(n, 10)
  }

  /** The type of a reply: the request's, or `error` for an error without one. */
  function ReplyName(name: string, response: Response): string {
    if name == "" && response.error then "error" else name
  }

  /** The state after `send(msg, req)`. */
  function Sent(s: State, request: Option<nat>, name: string, id: string, response: Response): State {
    if id != "" then s.(replies := s.replies + [Reply(request, ReplyName(name, response), id, None, response)])
    else s.(replies := s.replies + [Reply(request, ReplyName(name, response), MintedId(s.msgId), Some(s.msgId), response)],
            msgId := s.msgId + 1)
  }

  /** The reply to request `n`, which is then done. */
  function Answer(s: State, n: nat, response: Response): State
    requires n < |s.requests|
  {
    var r := s.requests[n];
    Sent(s.(pending := s.pending - {n}), Some(n), KindName(r.kind), r.id, response)
  }

  /** The handler of request `n` throws, and nobody catches it. */
  function Lose(s: State, n: nat): State {
    s.(pending := s.pending - {n}, lost := s.lost + {n})
  }

  function Wait(s: State, n: nat, phase: Phase): State {
    s.(pending := s.pending[n := phase])
  }

  /** The synchronous start of a handler, up to its first await. */
  function Begin(s: State, n: nat): State
    requires n < |s.requests|
  {
    var r := s.requests[n];
    match r.kind
    case Version => s
    case Missing => s
    case Unknown(_) => Answer(s, n, Response(true, ""))
    case _ =>
      if !r.readable then s
      else if r.kind.Wallets? then Wait(s, n, FindingWallets)
      else if r.kind.Unlock? then Wait(s, n, FindingWallet)
      else if r.kind.Attributes? then
        if r.publicKey in s.identities then Wait(s, n, FetchingAttributes) else Answer(s, n, NOT_AUTHORIZED)
      else Wait(s, n, if r.publicKey in s.identities then Establishing else Recording(NOT_AUTHORIZED))
  }

  /** The handler of request `n` continues after its await. */
  function Resume(s: State, n: nat, ok: bool): State
    requires n < |s.requests| && n in s.pending && !s.pending[n].Recording? && !s.pending[n].Sending?
  {
    var r := s.requests[n];
    match s.pending[n]
    case FindingWallets => if ok then Answer(s, n, Response(false, "")) else Lose(s, n)
    case FindingWallet => if ok then Wait(s, n, Unlocking) else Lose(s, n)
    case Unlocking =>
      if ok
      then Wait(s.(identities := s.identities + {r.publicKey}, unlocks := s.unlocks + [r.publicKey]), n, CheckingSignup)
      else Answer(s, n, Response(false, "locked"))
    case CheckingSignup => Answer(s, n, Response(false, if ok then "unlocked" else "locked"))
    case FetchingAttributes => Answer(s, n, if ok then Response(false, "") else Response(true, "attributes_error"))
    case Establishing => Wait(s, n, if ok then Posting else Recording(Response(true, "session_establish")))
    case Posting => Wait(s, n, Recording(Posted(r, ok)))
  }

  function Posted(r: Request, ok: bool): Response {
    if ok then Response(false, "")
    else Response(true, if r.kind.Auth? then "token_error" else "user_create_error")
  }

  /** `formatLoginAttempt` */
  function AttemptFor(n: nat, r: Request, response: Response): Attempt {
    Attempt(n, r.attributes > 0, !response.error, response.code)
  }

  /** The attempt is written, or something before that failed; either way the response goes out next. */
  function Record(s: State, n: nat, written: bool): State
    requires n < |s.requests| && n in s.pending && s.pending[n].Recording?
  {
    var response := s.pending[n].response;
    Wait(if written then s.(attempts := s.attempts + [AttemptFor(n, s.requests[n], response)])
         else s.(unrecorded := s.unrecorded + {n}),
         n, Sending(response))
  }

  predicate Enabled(s: State, e: Event) {
    match e
    case Garbled => true
    case Receives(_) => true
    case Resumes(n, _) => n < |s.requests| && n in s.pending && !s.pending[n].Recording? && !s.pending[n].Sending?
    case Records(n, _) => n < |s.requests| && n in s.pending && s.pending[n].Recording?
    case Sends(n) => n < |s.requests| && n in s.pending && s.pending[n].Sending?
  }

  function Step(s: State, e: Event): State
    requires Enabled(s, e)
  {
    match e
    case Garbled => Sent(s, None, "", "", INVALID_MESSAGE)
    case Receives(r) => Begin(s.(requests := s.requests + [r]), |s.requests|)
    case Resumes(n, ok) => Resume(s, n, ok)
    case Records(n, written) => Record(s, n, written)
    case Sends(n) => Answer(s, n, s.pending[n].response)
  }

  /** A connection and the handlers in flight on it. */
  class WSConnection {
    var identities: set<string>
    var msgId: nat
    var requests: seq<Request>
    var pending: map<nat, Phase>
    var replies: seq<Reply>
    var attempts: seq<Attempt>
    ghost var unlocks: seq<string>
    ghost var unrecorded: set<nat>
    ghost var lost: set<nat>

    ghost function History(): State
      reads this
    {
      State(identities, msgId, requests, pending, replies, unlocks, attempts, unrecorded, lost)
    }

    ghost predicate Valid()
      reads this
    {
      Inv(History())
    }

    constructor ()
      ensures History() == INITIAL && Valid()
    {
      identities, msgId, requests, pending := {}, 0, [], map[];
      replies, attempts, unlocks, unrecorded, lost := [], [], [], {}, {};
    }

    method AddIdentity(publicKey: string)
      modifies this`identities, this`unlocks
      ensures identities == old(identities) + {publicKey} && unlocks == old(unlocks) + [publicKey]
    {
      identities, unlocks := identities + {publicKey}, unlocks + [publicKey];
    }

    method Send(request: Option<nat>, name: string, id: string, response: Response)
      modifies this`replies, this`msgId
      ensures History() == Sent(old(History()), request, name, id, response)
    {
      var replyId, minted := id, None;
      if replyId == "" {
        replyId, minted := MintedId(msgId), Some(msgId);
        msgId := msgId + 1;
      }
      var replyName := name;
      if replyName == "" && response.error {
        replyName := "error";
      }
      replies := replies + [Reply(request, replyName, replyId, minted, response)];
    }

    method Finish(n: nat, response: Response)
      requires n < |requests|
      modifies this`pending, this`replies, this`msgId
      ensures History() == Answer(old(History()), n, response)
    {
      pending := pending - {n};
      Send(Some(n), KindName(requests[n].kind), requests[n].id, response);
    }

    method HandleGarbled()
      requires Valid()
      modifies this
      ensures Valid() && History() == Step(old(History()), Garbled)
    {
      StepKeeps(History(), Garbled);
      Send(None, "", "", INVALID_MESSAGE);
    }

    method HandleRequest(r: Request)
      requires Valid()
      modifies this
      ensures Valid() && History() == Step(old(History()), Receives(r))
    {
      StepKeeps(History(), Receives(r));
      var n := |requests|;
      requests := requests + [r];
      if r.kind.Unknown? {
        Finish(n, Response(true, ""));
      } else if r.readable && HasHandler(r.kind) {
        var known := r.publicKey in identities;
        if r.kind.Wallets? {
          pending := pending[n := FindingWallets];
        } else if r.kind.Unlock? {
          pending := pending[n := FindingWallet];
        } else if r.kind.Attributes? && known {
          pending := pending[n := FetchingAttributes];
        } else if r.kind.Attributes? {
          Finish(n, NOT_AUTHORIZED);
        } else {
          pending := pending[n := if known then Establishing else Recording(NOT_AUTHORIZED)];
        }
      }
    }

    method ResumeHandler(n: nat, ok: bool)
      requires Valid() && Enabled(History(), Resumes(n, ok))
      modifies this
      ensures Valid() && History() == Step(old(History()), Resumes(n, ok))
    {
      StepKeeps(History(), Resumes(n, ok));
      match pending[n] {
        case FindingWallets =>
          if ok {
            Finish(n, Response(false, ""));
          } else {
            pending, lost := pending - {n}, lost + {n};
          }
        case FindingWallet =>
          if ok {
            pending := pending[n := Unlocking];
          } else {
            pending, lost := pending - {n}, lost + {n};
          }
        case Unlocking =>
          if ok {
            AddIdentity(requests[n].publicKey);
            pending := pending[n := CheckingSignup];
          } else {
            Finish(n, Response(false, "locked"));
          }
        case CheckingSignup => Finish(n, Response(false, if ok then "unlocked" else "locked"));
        case FetchingAttributes => Finish(n, if ok then Response(false, "") else Response(true, "attributes_error"));
        case Establishing => pending := pending[n := if ok then Posting else Recording(Response(true, "session_establish"))];
        case Posting => pending := pending[n := Recording(Posted(requests[n], ok))];
      }
    }

    /** `authResp` up to and including the write of the attempt. */
    method RecordAttempt(n: nat, written: bool)
      requires Valid() && Enabled(History(), Records(n, written))
      modifies this
      ensures Valid() && History() == Step(old(History()), Records(n, written))
    {
      StepKeeps(History(), Records(n, written));
      var response := pending[n].response;
      if written {
        attempts := attempts + [AttemptFor(n, requests[n], response)];
      } else {
        unrecorded := unrecorded + {n};
      }
      pending := pending[n := Sending(response)];
    }

    /** The end of `authResp`. */
    method SendResponse(n: nat)
      requires Valid() && Enabled(History(), Sends(n))
      modifies this
      ensures Valid() && History() == Step(old(History()), Sends(n))
    {
      StepKeeps(History(), Sends(n));
      Finish(n, pending[n].response);
    }
  }

  // The invariant

  predicate Logged(r: Request) {
    r.kind.Auth? || r.kind.Signup?
  }

  /** The request only succeeds for a wallet that was unlocked on this connection. */
  predicate NeedsUnlock(r: Request) {
    r.kind.Attributes? || Logged(r)
  }

  predicate HasHandler(k: Kind) {
    !k.Version? && !k.Missing?
  }

  /** A request whose handler comes to an answer unless its wallet look-up fails. */
  predicate Owed(r: Request) {
    r.kind.Unknown? || (r.readable && HasHandler(r.kind))
  }

  predicate LetThrough(phase: Phase) {
    phase.FetchingAttributes? || phase.Establishing? || phase.Posting? ||
    ((phase.Recording? || phase.Sending?) && !phase.response.error)
  }

  predicate PhaseFits(r: Request, phase: Phase) {
    match r.kind
    case Wallets => phase.FindingWallets?
    case Unlock => phase.FindingWallet? || phase.Unlocking? || phase.CheckingSignup?
    case Attributes => phase.FetchingAttributes?
    case Auth => phase.Establishing? || phase.Posting? || phase.Recording? || phase.Sending?
    case Signup => phase.Establishing? || phase.Posting? || phase.Recording? || phase.Sending?
    case _ => false
  }

  ghost predicate Answered(s: State, n: nat) {
    exists i :: 0 <= i < |s.replies| && s.replies[i].request == Some(n)
  }

  ghost predicate AnsweredWith(s: State, n: nat, response: Response) {
    exists i :: 0 <= i < |s.replies| && s.replies[i].request == Some(n) && s.replies[i].response == response
  }

  ghost predicate Attempted(s: State, n: nat) {
    exists i :: 0 <= i < |s.attempts| && s.attempts[i].request == n
  }

  ghost predicate GoodPending(s: State, n: nat) {
    n in s.pending ==> (
      n < |s.requests| && PhaseFits(s.requests[n], s.pending[n]) && !Answered(s, n) &&
      s.requests[n].readable && n !in s.lost &&
      (LetThrough(s.pending[n]) ==> s.requests[n].publicKey in s.unlocks) &&
      (s.pending[n].CheckingSignup? ==> s.requests[n].publicKey in s.identities) &&
      (s.pending[n].Sending? <==> n in s.unrecorded || Attempted(s, n)))
  }

  /** A reply carries its request's type and message id. */
  ghost predicate GoodReply(s: State, reply: Reply) {
    (reply.minted.Some? ==> reply.minted.value < s.msgId && reply.id == MintedId(reply.minted.value)) &&
    (reply.request.Some? ==> Matches(s, reply, reply.request.value))
  }

  ghost predicate Matches(s: State, reply: Reply, n: nat) {
    n < |s.requests| && n !in s.pending && Owed(s.requests[n]) && n !in s.lost &&
    reply.name == ReplyName(KindName(s.requests[n].kind), reply.response) &&
    (if s.requests[n].id != "" then reply.id == s.requests[n].id else reply.minted.Some?) &&
    (NeedsUnlock(s.requests[n]) && !reply.response.error ==> s.requests[n].publicKey in s.unlocks) &&
    (Logged(s.requests[n]) ==> n in s.unrecorded || Attempted(s, n))
  }

  /** A recorded attempt belongs to an auth or signup, and says what its reply says or will say. */
  ghost predicate GoodAttempt(s: State, a: Attempt) {
    var n, response := a.request, Response(!a.success, a.code);
    n < |s.requests| && Logged(s.requests[n]) && n !in s.unrecorded && a.signup == (s.requests[n].attributes > 0) &&
    if n in s.pending then s.pending[n] == Sending(response) else AnsweredWith(s, n, response)
  }

  ghost predicate Unique(s: State) {
    (forall i, j :: 0 <= i < j < |s.replies| && s.replies[i].request.Some? ==> s.replies[i].request != s.replies[j].request) &&
    (forall i, j :: 0 <= i < j < |s.replies| && s.replies[i].minted.Some? ==> s.replies[i].minted != s.replies[j].minted) &&
    (forall i, j :: 0 <= i < j < |s.attempts| ==> s.attempts[i].request != s.attempts[j].request)
  }

  ghost predicate Core(s: State) {
    (forall key :: key in s.identities ==> key in s.unlocks) &&
    (forall n :: n in s.unrecorded ==> n < |s.requests|) &&
    (forall n :: n in s.lost ==> n < |s.requests| && (s.requests[n].kind.Wallets? || s.requests[n].kind.Unlock?)) &&
    (forall n :: GoodPending(s, n)) &&
    (forall i :: 0 <= i < |s.replies| ==> GoodReply(s, s.replies[i])) &&
    (forall i :: 0 <= i < |s.attempts| ==> GoodAttempt(s, s.attempts[i])) &&
    Unique(s)
  }

  ghost predicate Inv(s: State) {
    Core(s) && forall n :: 0 <= n < |s.requests| && Owed(s.requests[n]) ==> n in s.pending || n in s.lost || Answered(s, n)
  }

  /** Nothing was sent or recorded between `s` and `t`; only the handler of request `n` may have moved. */
  ghost predicate Quiet(s: State, t: State, n: nat) {
    t.replies == s.replies && t.attempts == s.attempts && t.unrecorded == s.unrecorded && t.msgId == s.msgId &&
    (t.lost == s.lost || (t.lost == s.lost + {n} && n !in t.pending)) && s.identities <= t.identities &&
    s.requests <= t.requests && (forall key :: key in s.unlocks ==> key in t.unlocks) &&
    forall m :: m != n ==> (m in t.pending <==> m in s.pending) && (m in s.pending ==> t.pending[m] == s.pending[m])
  }

  lemma QuietKeeps(s: State, t: State, n: nat)
    requires Core(s) && Quiet(s, t, n)
    requires forall key :: key in t.identities ==> key in t.unlocks
    requires n in s.pending || n >= |s.requests|
    requires n in s.pending ==> !s.pending[n].Sending?
    requires n in t.pending ==> n < |t.requests| && PhaseFits(t.requests[n], t.pending[n]) && !t.pending[n].Sending?
    requires n in t.pending ==> t.requests[n].readable
    requires n in t.pending && LetThrough(t.pending[n]) ==> t.requests[n].publicKey in t.unlocks
    requires n in t.pending && t.pending[n].CheckingSignup? ==> t.requests[n].publicKey in t.identities
    requires t.lost != s.lost ==> n < |t.requests| && (t.requests[n].kind.Wallets? || t.requests[n].kind.Unlock?)
    ensures Core(t) && forall m :: Answered(s, m) ==> Answered(t, m)
  {
    NotYetAnswered(s, n);
    forall m
      ensures GoodPending(t, m)
    {
      assert GoodPending(s, m);
      assert Answered(t, m) <==> Answered(s, m);
      assert Attempted(t, m) <==> Attempted(s, m);
    }
    forall i | 0 <= i < |t.replies|
      ensures GoodReply(t, t.replies[i])
    {
      assert GoodReply(s, s.replies[i]);
      if t.replies[i].request.Some? {
        var m := t.replies[i].request.value;
        assert Answered(s, m);
        assert Attempted(s, m) ==> Attempted(t, m);
      }
    }
    forall i | 0 <= i < |t.attempts|
      ensures GoodAttempt(t, t.attempts[i])
    {
      var a := s.attempts[i];
      assert GoodAttempt(s, a) && Attempted(s, a.request);
      assert AnsweredWith(s, a.request, Response(!a.success, a.code)) ==> AnsweredWith(t, a.request, Response(!a.success, a.code));
    }
  }

  /** A request in flight, or not yet received, has no reply; and no attempt before its response is due. */
  lemma NotYetAnswered(s: State, n: nat)
    requires Core(s) && (n in s.pending || n >= |s.requests|)
    ensures !Answered(s, n)
    ensures n in s.pending && s.pending[n].Sending? <==> n in s.unrecorded || Attempted(s, n)
  {
    assert GoodPending(s, n);
    forall i | 0 <= i < |s.replies|
      ensures s.replies[i].request != Some(n)
    {
      assert GoodReply(s, s.replies[i]);
    }
    forall i | 0 <= i < |s.attempts|
      ensures s.attempts[i].request == n ==> n in s.pending && s.pending[n].Sending?
    {
      assert GoodAttempt(s, s.attempts[i]);
    }
  }

  /** Request `request`, if any, is no longer in flight. */
  function Closed(s: State, request: Option<nat>): State {
    if request.Some? then s.(pending := s.pending - {request.value}) else s
  }

  /** A response for `n` that fits what is known about it. */
  ghost predicate Due(s: State, n: nat, response: Response) {
    n < |s.requests| && Owed(s.requests[n]) && n !in s.lost && !Answered(s, n) &&
    (NeedsUnlock(s.requests[n]) && !response.error ==> s.requests[n].publicKey in s.unlocks) &&
    (Logged(s.requests[n]) ==> n in s.unrecorded || Attempted(s, n)) &&
    (Attempted(s, n) ==> n in s.pending && s.pending[n] == Sending(response))
  }

  /** Sending one more message keeps everything about the earlier ones. */
  lemma SendKeeps(s: State, request: Option<nat>, name: string, id: string, response: Response)
    requires Core(s)
    requires request.Some? ==> Due(s, request.value, response) && id == s.requests[request.value].id
    requires request.Some? ==> name == KindName(s.requests[request.value].kind)
    ensures var t := Sent(Closed(s, request), request, name, id, response);
      Core(t) && (forall m :: Answered(s, m) ==> Answered(t, m)) && (request.Some? ==> Answered(t, request.value))
  {
    SendAnswers(s, request, name, id, response);
    SendKeepsPending(s, request, name, id, response);
    SendKeepsReplies(s, request, name, id, response);
    SendKeepsUnique(s, request, name, id, response);
    SendKeepsAttempts(s, request, name, id, response);
  }

  lemma SendKeepsPending(s: State, request: Option<nat>, name: string, id: string, response: Response)
    requires Core(s)
    ensures forall n :: GoodPending(Sent(Closed(s, request), request, name, id, response), n)
  {
    var t := Sent(Closed(s, request), request, name, id, response);
    SendAnswers(s, request, name, id, response);
    forall n
      ensures GoodPending(t, n)
    {
      assert GoodPending(s, n);
    }
  }

  lemma SendKeepsReplies(s: State, request: Option<nat>, name: string, id: string, response: Response)
    requires Core(s)
    requires request.Some? ==> Due(s, request.value, response) && id == s.requests[request.value].id
    requires request.Some? ==> name == KindName(s.requests[request.value].kind)
    ensures var t := Sent(Closed(s, request), request, name, id, response);
      forall i :: 0 <= i < |t.replies| ==> GoodReply(t, t.replies[i])
  {
    var t, last := Sent(Closed(s, request), request, name, id, response), |s.replies|;
    SendAnswers(s, request, name, id, response);
    var reply := t.replies[last];
    assert t.replies == s.replies + [reply];
    assert request.Some? ==> Matches(t, reply, request.value);
    forall i | 0 <= i < last
      ensures GoodReply(t, t.replies[i])
    {
      assert t.replies[i] == s.replies[i] && GoodReply(s, s.replies[i]);
    }
  }

  /** The new reply has its own minted id and answers no answered request. */
  lemma SendKeepsUnique(s: State, request: Option<nat>, name: string, id: string, response: Response)
    requires Core(s)
    requires request.Some? ==> !Answered(s, request.value)
    ensures Unique(Sent(Closed(s, request), request, name, id, response))
  {
    var t, last := Sent(Closed(s, request), request, name, id, response), |s.replies|;
    var reply := t.replies[last];
    assert t.replies == s.replies + [reply];
    forall i | 0 <= i < last
      ensures t.replies[i].minted.Some? ==> t.replies[i].minted != reply.minted
      ensures t.replies[i].request.Some? ==> t.replies[i].request != request
    {
      assert t.replies[i] == s.replies[i] && GoodReply(s, s.replies[i]);
    }
  }

  /** Exactly the answered request is newly answered, and no attempt is added. */
  lemma SendAnswers(s: State, request: Option<nat>, name: string, id: string, response: Response)
    ensures var t := Sent(Closed(s, request), request, name, id, response);
      forall m: nat :: (Answered(t, m) <==> Answered(s, m) || request == Some(m)) && (Attempted(t, m) <==> Attempted(s, m))
  {
    var t := Sent(Closed(s, request), request, name, id, response);
    forall m: nat
      ensures Answered(t, m) <==> Answered(s, m) || request == Some(m)
    {
      if Answered(s, m) {
        var i :| 0 <= i < |s.replies| && s.replies[i].request == Some(m);
        assert t.replies[i].request == Some(m);
      }
      assert t.replies[|s.replies|].request == request;
    }
  }

  lemma SendKeepsAttempts(s: State, request: Option<nat>, name: string, id: string, response: Response)
    requires Core(s)
    requires request.Some? ==> Due(s, request.value, response)
    ensures var t := Sent(Closed(s, request), request, name, id, response);
      forall i :: 0 <= i < |t.attempts| ==> GoodAttempt(t, t.attempts[i])
  {
    var t, last := Sent(Closed(s, request), request, name, id, response), |s.replies|;
    forall i | 0 <= i < |t.attempts|
      ensures GoodAttempt(t, t.attempts[i])
    {
      var a := s.attempts[i];
      var n, agreed := a.request, Response(!a.success, a.code);
      assert GoodAttempt(s, a) && Attempted(s, n);
      if request == Some(n) {
        assert t.replies[last].request == Some(n) && t.replies[last].response == agreed;
      } else if AnsweredWith(s, n, agreed) {
        var k :| 0 <= k < |s.replies| && s.replies[k].request == Some(n) && s.replies[k].response == agreed;
        assert t.replies[k] == s.replies[k];
      }
    }
  }

  /** The attempt, or its loss, is noted exactly when the response becomes due. */
  lemma RecordKeeps(s: State, n: nat, written: bool)
    requires Core(s) && Enabled(s, Records(n, written))
    ensures Core(Record(s, n, written))
    ensures forall m :: Answered(s, m) ==> Answered(Record(s, n, written), m)
  {
    var t := Record(s, n, written);
    NotYetAnswered(s, n);
    forall m: nat
      ensures Answered(t, m) <==> Answered(s, m)
      ensures Attempted(t, m) <==> Attempted(s, m) || (written && m == n)
    {
      if Attempted(s, m) {
        var i :| 0 <= i < |s.attempts| && s.attempts[i].request == m;
        assert t.attempts[i].request == m;
      }
      if written && m == n {
        assert t.attempts[|s.attempts|].request == n;
      }
    }
    forall m
      ensures GoodPending(t, m)
    {
      assert GoodPending(s, m);
    }
    forall i | 0 <= i < |t.replies|
      ensures GoodReply(t, t.replies[i])
    {
      assert GoodReply(s, s.replies[i]);
    }
    RecordKeepsAttempts(s, n, written);
  }

  lemma RecordKeepsAttempts(s: State, n: nat, written: bool)
    requires Core(s) && Enabled(s, Records(n, written))
    ensures var t := Record(s, n, written);
      (forall i :: 0 <= i < |t.attempts| ==> GoodAttempt(t, t.attempts[i])) &&
      forall i :: 0 <= i < |s.attempts| ==> s.attempts[i].request != n
  {
    var t := Record(s, n, written);
    NotYetAnswered(s, n);
    forall i | 0 <= i < |s.attempts|
      ensures s.attempts[i].request != n && GoodAttempt(t, s.attempts[i])
    {
      var a := s.attempts[i];
      assert GoodAttempt(s, a) && Attempted(s, a.request);
      assert AnsweredWith(s, a.request, Response(!a.success, a.code)) ==> AnsweredWith(t, a.request, Response(!a.success, a.code));
    }
    assert GoodPending(s, n);
  }

  lemma BeginKeeps(s: State, r: Request)
    requires Inv(s)
    ensures Inv(Step(s, Receives(r)))
  {
    if r.kind.Unknown? {
      RefuseKeeps(s, r, Response(true, ""));
    } else if r.kind.Attributes? && r.readable && r.publicKey !in s.identities {
      RefuseKeeps(s, r, NOT_AUTHORIZED);
    } else {
      BeginQuietly(s, r);
    }
  }

  /** A request whose handler waits, or never starts. */
  lemma BeginQuietly(s: State, r: Request)
    requires Inv(s)
    requires !r.kind.Unknown? && (r.kind.Attributes? && r.readable ==> r.publicKey in s.identities)
    ensures Inv(Step(s, Receives(r)))
  {
    var n, t := |s.requests|, Step(s, Receives(r));
    NotYetAnswered(s, n);
    assert GoodPending(s, n);
    assert Quiet(s, t, n);
    QuietKeeps(s, t, n);
  }

  /** A request answered as soon as it is received. */
  lemma RefuseKeeps(s: State, r: Request, response: Response)
    requires Inv(s) && response.error && !Logged(r) && Owed(r)
    ensures var s1 := s.(requests := s.requests + [r]);
      Inv(Answer(s1, |s.requests|, response))
  {
    var n, s1 := |s.requests|, s.(requests := s.requests + [r]);
    NotYetAnswered(s, n);
    assert GoodPending(s, n);
    QuietKeeps(s, s1, n);
    assert !Answered(s1, n) && !Attempted(s1, n);
    SendKeeps(s1, Some(n), KindName(r.kind), r.id, response);
  }

  lemma AnswerKeeps(s: State, n: nat, response: Response)
    requires Inv(s) && Due(s, n, response)
    ensures Inv(Answer(s, n, response))
  {
    var r := s.requests[n];
    SendKeeps(s, Some(n), KindName(r.kind), r.id, response);
  }

  lemma ResumeKeeps(s: State, n: nat, ok: bool)
    requires Inv(s) && Enabled(s, Resumes(n, ok))
    ensures Inv(Resume(s, n, ok))
  {
    NotYetAnswered(s, n);
    assert GoodPending(s, n);
    var t := Resume(s, n, ok);
    match s.pending[n] {
      case FindingWallets =>
        if ok {
          AnswerKeeps(s, n, Response(false, ""));
        } else {
          QuietKeeps(s, t, n);
        }
      case Unlocking =>
        if ok {
          QuietKeeps(s, t, n);
        } else {
          AnswerKeeps(s, n, Response(false, "locked"));
        }
      case CheckingSignup => AnswerKeeps(s, n, Response(false, if ok then "unlocked" else "locked"));
      case FetchingAttributes => AnswerKeeps(s, n, if ok then Response(false, "") else Response(true, "attributes_error"));
      case _ => QuietKeeps(s, t, n);
    }
  }

  lemma StepKeeps(s: State, e: Event)
    requires Inv(s) && Enabled(s, e)
    ensures Inv(Step(s, e))
  {
    match e {
      case Garbled => SendKeeps(s, None, "", "", INVALID_MESSAGE);
      case Receives(r) => BeginKeeps(s, r);
      case Resumes(n, ok) => ResumeKeeps(s, n, ok);
      case Records(n, written) => RecordKeeps(s, n, written);
      case Sends(n) =>
        NotYetAnswered(s, n);
        assert GoodPending(s, n);
        AnswerKeeps(s, n, s.pending[n].response);
    }
  }

  // Runs

  predicate Runnable(s: State, events: seq<Event>)
    decreases |events|, 0
  {
    events == [] || (Runnable(s, Init(events)) && Enabled(Run(s, Init(events)), Last(events)))
  }

  function Run(s: State, events: seq<Event>): State
    requires Runnable(s, events)
    decreases |events|, 1
  {
    if events == [] then s else Step(Run(s, Init(events)), Last(events))
  }

  lemma {:induction false} RunKeeps(s: State, events: seq<Event>)
    requires Inv(s) && Runnable(s, events)
    ensures Inv(Run(s, events))
    decreases |events|
  {
    if events != [] {
      RunKeeps(s, Init(events));
      StepKeeps(Run(s, Init(events)), Last(events));
    }
  }

  /** The `switch` over a message's type; a `null` has none. */
  function KindOf(name: string): Kind {
    if name == "wallets" then Wallets
    else if name == "unlock" then Unlock
    else if name == "attributes" then Attributes
    else if name == "auth" then Auth
    else if name == "signup" then Signup
    else if name == "version" then Version
    else Unknown(name)
  }

  /**
   Over every interleaving every reply to a request carries the type it was sent with, or `error`
   if that was empty and the reply is an error, and its message id, or else an id of its own.
   */
  lemma RepliesMatchRequests(events: seq<Event>, i: nat, name: string)
    requires Runnable(INITIAL, events)
    requires i < |Run(INITIAL, events).replies|
    ensures var s := Run(INITIAL, events);
      var reply := s.replies[i];
      reply.request.Some? ==>
        var n := reply.request.value;
        n < |s.requests| && n !in s.pending &&
        (s.requests[n].kind == KindOf(name) ==> reply.name == if name == "" && reply.response.error then "error" else name) &&
        if s.requests[n].id != "" then reply.id == s.requests[n].id
        else reply.minted.Some? && reply.minted.value < s.msgId && reply.id == "idw-" + Numeral(reply.minted.value, 10)
  {
    RunKeeps(INITIAL, events);
    var s := Run(INITIAL, events);
    KindReadsBack(name);
    ReplyMatches(s, s.replies[i], name);
  }

  lemma KindReadsBack(name: string)
    ensures KindName(KindOf(name)) == name
  {
  }

  lemma ReplyMatches(s: State, reply: Reply, name: string)
    requires Core(s) && reply in s.replies && KindName(KindOf(name)) == name
    ensures reply.request.Some? ==>
      var n := reply.request.value;
      n < |s.requests| && n !in s.pending &&
      (s.requests[n].kind == KindOf(name) ==> reply.name == if name == "" && reply.response.error then "error" else name) &&
      if s.requests[n].id != "" then reply.id == s.requests[n].id
      else reply.minted.Some? && reply.minted.value < s.msgId && reply.id == "idw-" + Numeral(reply.minted.value, 10)
  {
    assert GoodReply(s, reply);
  }

  /** No request is answered twice, and the ids the connection mints never repeat. */
  lemma RepliesDiffer(events: seq<Event>, i: nat, j: nat)
    requires Runnable(INITIAL, events)
    requires i < j < |Run(INITIAL, events).replies|
    ensures var s := Run(INITIAL, events);
      var a, b := s.replies[i], s.replies[j];
      (a.request.Some? ==> a.request != b.request) && (a.minted.Some? && b.minted.Some? ==> a.id != b.id)
  {
    RunKeeps(INITIAL, events);
    var s := Run(INITIAL, events);
    assert GoodReply(s, s.replies[i]) && GoodReply(s, s.replies[j]);
    var a, b := s.replies[i], s.replies[j];
    if a.minted.Some? && b.minted.Some? && a.id == b.id {
      assert MintedId(a.minted.value)[4..] == Numeral(a.minted.value, 10);
      assert MintedId(b.minted.value)[4..] == Numeral(b.minted.value, 10);
      NumeralInjective(a.minted.value, b.minted.value, 10);
    }
  }

  /**
   Once nothing is in flight, a request has been answered if and only if it was of an unknown
   type, or had a handler that could take its payload apart and, for a list of wallets or an
   unlock, found the wallet. A `version` request, which has no handler, and a `null` are not.
   */
  lemma IdleMeansAnswered(events: seq<Event>, n: nat)
    requires Runnable(INITIAL, events)
    requires n < |Run(INITIAL, events).requests|
    ensures var s := Run(INITIAL, events);
      var r := s.requests[n];
      s.pending == map[] ==> (Answered(s, n) <==> r.kind.Unknown? || (r.readable && HasHandler(r.kind) && n !in s.lost))
    ensures var s := Run(INITIAL, events);
      n in s.lost ==> s.requests[n].kind.Wallets? || s.requests[n].kind.Unlock?
  {
    RunKeeps(INITIAL, events);
    var s := Run(INITIAL, events);
    forall i | 0 <= i < |s.replies|
      ensures s.replies[i].request == Some(n) ==> Owed(s.requests[n]) && n !in s.lost
    {
      assert GoodReply(s, s.replies[i]);
    }
  }

  /**
   The look-ups that fail outside any `try`, of the wallets and their signups or of an unlock's
   wallet: the only events that lose a request, and they always do.
   */
  lemma LosingStep(s: State, e: Event, n: nat)
    requires Inv(s) && Enabled(s, e)
    ensures n in Step(s, e).lost <==>
      n in s.lost || (e == Resumes(n, false) && (s.pending[n].FindingWallets? || s.pending[n].FindingWallet?))
  {
  }

  /**
   An unlock whose signup check fails is answered `locked`, but its key stays unlocked on the
   connection: a later request for it is let through.
   */
  lemma LockedButUnlocked(s: State, n: nat, r: Request)
    requires Inv(s) && Enabled(s, Resumes(n, false)) && s.pending[n].CheckingSignup?
    requires r.kind.Attributes? && r.readable && r.publicKey == s.requests[n].publicKey
    ensures var t := Step(s, Resumes(n, false));
      AnsweredWith(t, n, Response(false, "locked")) && r.publicKey in t.identities &&
      Step(t, Receives(r)).pending[|t.requests|] == FetchingAttributes
  {
    assert GoodPending(s, n);
    var t := Step(s, Resumes(n, false));
    assert t.replies[|s.replies|].request == Some(n);
  }

  /**
   An answered auth or signup either failed to write its attempt or has exactly one in the log,
   whose success flag and error code are those of the reply.
   */
  lemma OneAttemptPerLogin(events: seq<Event>, n: nat, response: Response)
    requires Runnable(INITIAL, events)
    requires AnsweredWith(Run(INITIAL, events), n, response)
    ensures var s := Run(INITIAL, events);
      n < |s.requests| && (Logged(s.requests[n]) ==> n in s.unrecorded || Attempted(s, n)) &&
      (n in s.unrecorded ==> !Attempted(s, n)) &&
      (forall i :: 0 <= i < |s.attempts| && s.attempts[i].request == n ==>
        s.attempts[i] == Attempt(n, s.requests[n].attributes > 0, !response.error, response.code)) &&
      forall i, j :: 0 <= i < j < |s.attempts| ==> s.attempts[i].request != s.attempts[j].request
  {
    RunKeeps(INITIAL, events);
    var s := Run(INITIAL, events);
    var k :| 0 <= k < |s.replies| && s.replies[k].request == Some(n) && s.replies[k].response == response;
    assert GoodReply(s, s.replies[k]);
    forall i | 0 <= i < |s.attempts| && s.attempts[i].request == n
      ensures n !in s.unrecorded && s.attempts[i] == Attempt(n, s.requests[n].attributes > 0, !response.error, response.code)
    {
      var a := s.attempts[i];
      assert GoodAttempt(s, a);
      var m :| 0 <= m < |s.replies| && s.replies[m].request == Some(n) && s.replies[m].response == Response(!a.success, a.code);
      assert m == k;
    }
  }
}
