/** The module-level `sessions` table, `getSession`, and the `/process`
    handler as methods of a session store. */
module Store {
  import opened Wrappers
  import opened Text
  import opened Scanners
  import opened Detect
  import opened Sessions
  import Turn

  /** The request body: `message` and `sessionId`, either possibly absent. */
  datatype Request = Request(message: Option<string>, sessionId: Option<string>)

  /** The 400 reply: message and session id are both required. */
  datatype RequestError = MissingMessageOrSessionId

  /** The guard `!message || !sessionId`: both must be present and non-empty. */
  function Validate(req: Request): (r: Result<(string, string), RequestError>)
    ensures r.Success? <==> Filled(req.message) && Filled(req.sessionId)
    ensures r.Success? ==> r.value == (req.message.value, req.sessionId.value)
  {
    if Filled(req.message) && Filled(req.sessionId) then Success((req.message.value, req.sessionId.value))
    else Failure(MissingMessageOrSessionId)
  }

  /** Lines 42-72 of the handler: count the message, record it, and run the
      detectors over it, updating the session as each one fires. */
  method DetectInto(s0: Session, message: string, timestamp: nat) returns (session: Session, lower: string)
    ensures session == Detected(s0, HistoryEntry(message, timestamp))
    ensures lower == Normalize(message)
  {
    session := s0;
    session := session.(messages := session.messages + 1);
    session := session.(history := session.history + [HistoryEntry(message, timestamp)]);
    lower := Normalize(message);

    var model := DetectModel(lower);
    if model.Some? {
      session := session.(modelInterest := model);
    }
    var surface := MatchSurface(message);
    if surface.Some? {
      session := session.(surfaceHA := surface);
    }
    var phone := MatchPhone(message);
    if phone.Some? && !Filled(session.userPhone) {
      session := session.(userPhone := Some(StripNonDigits(phone.value)));
    }
    if session.messages == 2 && !Filled(session.userName) && Utf16Length(message) < 30 {
      session := session.(userName := Some(Trim(message)));
    }
  }

  /** Lines 42-182 of the handler for a valid request: the session after the
      turn and everything sent back. */
  method HandleTurn(s0: Session, message: string, timestamp: nat) returns (o: Outcome)
    ensures o == Advance(s0, HistoryEntry(message, timestamp))
  {
    var session, lower := DetectInto(s0, message, timestamp);
    var intent := DetectIntent(lower);
    if session.messages == 2 && !Filled(session.userName) {
      session := session.(userName := Some(Trim(message)));
    }
    var reply := SelectReply(session, intent);
    var tail := "";
    if session.messages >= 4 && !Filled(session.userPhone) && session.modelInterest.Some? {
      tail := PhoneRequest;
    }
    var response := Response(reply, tail);
    var model := session.modelInterest;

    var complete := HasCompleteLead(session);
    if complete && !session.captured {
      session := session.(captured := true);
    }
    var needs := Needs(IsExactly(response, NeedsSheets), IsExactly(response, NeedsPinecone), complete && session.captured);
    o := Outcome(response, session, needs, intent, model);
  }

  class SessionStore {
    /** Every session seen so far, by id; never shrinks. */
    var sessions: map<string, Session>

    /** Each record is stored under its own id. */
    ghost predicate Valid()
      reads this
    {
      forall id :: id in sessions ==> sessions[id].id == id
    }

    constructor ()
      ensures Valid() && sessions == map[]
    {
      sessions := map[];
    }

    /** The record `getSession` would return for `id`. */
    function Lookup(id: string): (s: Session)
      reads this
      requires Valid()
      ensures s.id == id
      ensures id !in sessions ==> s == NewSession(id)
    {
      if id in sessions then sessions[id] else NewSession(id)
    }

    /** `getSession`: the stored record, or a fresh one inserted under `id`. */
    method GetSession(id: string) returns (s: Session)
      requires Valid()
      modifies this
      ensures Valid()
      ensures old(id in sessions) ==> s == old(sessions[id]) && sessions == old(sessions)
      ensures old(id !in sessions) ==> s == NewSession(id) && sessions == old(sessions)[id := s]
      ensures s.id == id && s == old(Lookup(id))
    {
      if id !in sessions {
        sessions := sessions[id := NewSession(id)];
      }
      s := sessions[id];
    }

    /** The `/process` handler: a valid request advances its session by one
        turn and stores it back; an invalid one changes nothing. */
    method Process(req: Request, timestamp: nat) returns (r: Result<Outcome, RequestError>)
      requires Valid()
      modifies this
      ensures Valid()
      ensures Validate(req).Failure? ==> r == Failure(MissingMessageOrSessionId) && sessions == old(sessions)
      ensures Validate(req).Success? ==>
        var (message, id) := Validate(req).value;
        && r == Success(Advance(old(Lookup(id)), HistoryEntry(message, timestamp)))
        && sessions == old(sessions)[id := r.value.session]
        && r.value.session.messages == old(Lookup(id)).messages + 1
        && |r.value.session.history| == |old(Lookup(id)).history| + 1
      ensures forall k :: k in old(sessions) ==> k in sessions
      ensures Validate(req).Success? ==>
        forall k :: k in old(sessions) && k != req.sessionId.value ==> sessions[k] == old(sessions[k])
    {
      var checked := Validate(req);
      if checked.Failure? {
        return Failure(checked.error);
      }
      var (message, id) := checked.value;
      var session := GetSession(id);
      var outcome := HandleTurn(session, message, timestamp);
      Turn.CountsOneMessage(session, HistoryEntry(message, timestamp));
      sessions := sessions[id := outcome.session];
      r := Success(outcome);
    }
  }
}
