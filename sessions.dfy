/** The per-conversation session record and one turn of the `/process`
    handler as a pure function of the session before the turn and the
    incoming message: `Advance`. The store's `Process` method performs the
    same turn step by step and is proved to agree with it. */
module Sessions {
  import opened Wrappers
  import opened Text
  import opened Scanners
  import opened Detect

  /** One element of `history`: the message text and when it arrived. */
  datatype HistoryEntry = HistoryEntry(user: string, timestamp: nat)

  /** The record `getSession` creates; `null` fields are `None`. */
  datatype Session = Session(
    id: string,
    messages: nat,
    userName: Option<string>,
    userPhone: Option<string>,
    modelInterest: Option<Model>,
    surfaceHA: Option<nat>,
    captured: bool,
    history: seq<HistoryEntry>)

  /** The record created for an unseen session id. */
  function NewSession(id: string): Session {
    Session(id, 0, None, None, None, None, false, [])
  }

  /** JavaScript truthiness of a string-or-null field: `null` and `""` are falsy. */
  predicate Filled(field: Option<string>) {
    field.Some? && field.value != ""
  }

  /** `session.userName || ""`. */
  function DisplayName(field: Option<string>): string {
    if Filled(field) then field.value else ""
  }

  /** The surface as the demo template shows it: `0` is falsy and shows as pending. */
  function ShownSurface(surface: Option<nat>): Option<nat> {
    if surface.Some? && surface.value != 0 then surface else None
  }

  /** The handler's `hasCompleteLead`. */
  predicate HasCompleteLead(s: Session) {
    Filled(s.userName) && Filled(s.userPhone) && s.modelInterest.Some?
  }

  /** The stored phone, when there is one, consists of digits only. */
  predicate PhoneDigits(s: Session) {
    s.userPhone.Some? ==> forall k :: 0 <= k < |s.userPhone.value| ==> IsDigit(s.userPhone.value[k])
  }

  // ---------------------------------------------------------------------------
  // Responses

  /** The scripted replies, by the data each one shows; their wording is not modelled. */
  datatype Template =
    | Greeting                                       // the fixed first-message introduction
    | NameAck(name: string)                          // greets by name and asks for the surface
    | ModelMenu(name: string)                        // lists the five models
    | PriceModelPrompt(name: string)                 // asks which model to price
    | DemoChecklist(name: string, surface: Option<nat>) // what a demo needs; surface or pending
    | FinancingPlans(name: string)                   // the financing options
    | ModelFollowUp(model: Model)                    // what else to know about the model
    | ModelPrompt(name: string)                      // asks which model interests the user

  /** A reply is a scripted template or a sentinel string for the caller. */
  datatype Reply = Scripted(template: Template) | Sentinel(marker: string)

  /** The final response: the reply followed by `tail`, which is empty or the
      phone request. */
  datatype Response = Response(base: Reply, tail: string)

  const NeedsSheets: string := "__NEEDS_SHEETS__"
  const NeedsPinecone: string := "__NEEDS_PINECONE__"
  const PhoneRequest: string := "\n\n\U{1F4F1} Por favor, dejame tu celular para enviarte m\U{E1}s info."

  /** `response === text` for a sentinel `text`: a scripted reply always holds
      fixed wording of its own, so only a sentinel with nothing appended equals
      one. */
  predicate IsExactly(r: Response, text: string) {
    r.base.Sentinel? && r.base.marker + r.tail == text
  }

  /** The `needs` object of the handler's reply. */
  datatype Needs = Needs(sheets: bool, pinecone: bool, saveLead: bool)

  /** Everything the handler sends back for a valid request. */
  datatype Outcome = Outcome(response: Response, session: Session, needs: Needs, intent: Intent, model: Option<Model>)

  // ---------------------------------------------------------------------------
  // The steps of one turn

  /** Counting the message and appending it to the history. */
  function Record(s: Session, entry: HistoryEntry): Session {
    s.(messages := s.messages + 1, history := s.history + [entry])
  }

  /** Model detection: a detected model replaces the stored one. */
  function WithModel(s: Session, lower: string): Session {
    match DetectModel(lower)
    case Some(m) => s.(modelInterest := Some(m))
    case None => s
  }

  /** Surface detection: a matched surface replaces the stored one. */
  function WithSurface(s: Session, message: string): Session {
    match MatchSurface(message)
    case Some(v) => s.(surfaceHA := Some(v))
    case None => s
  }

  /** Phone detection: written only while no (truthy) phone is stored. */
  function WithPhone(s: Session, message: string): Session {
    match MatchPhone(message)
    case Some(p) => if Filled(s.userPhone) then s else s.(userPhone := Some(StripNonDigits(p)))
    case None => s
  }

  /** Name detection on message 2 for messages shorter than 30 UTF-16 units. */
  function WithShortName(s: Session, message: string): Session {
    if s.messages == 2 && !Filled(s.userName) && Utf16Length(message) < 30
    then s.(userName := Some(Trim(message)))
    else s
  }

  /** The name capture inside the message-2 branch of the response cascade. */
  function WithName(s: Session, message: string): Session {
    if s.messages == 2 && !Filled(s.userName) then s.(userName := Some(Trim(message))) else s
  }

  /** The response cascade, on the session as it stands after detection. */
  function SelectReply(s: Session, intent: Intent): Reply {
    var name := DisplayName(s.userName);
    if s.messages == 1 then Scripted(Greeting)
    else if s.messages == 2 then Scripted(NameAck(name))
    else if s.messages == 3 && s.modelInterest.None? then Scripted(ModelMenu(name))
    else if intent == Price then
      if s.modelInterest.None? then Scripted(PriceModelPrompt(name)) else Sentinel(NeedsSheets)
    else if intent == Performance && s.modelInterest.Some? then Sentinel(NeedsPinecone)
    else if intent == Demo then Scripted(DemoChecklist(name, ShownSurface(s.surfaceHA)))
    else if intent == Financing then Scripted(FinancingPlans(name))
    else if s.modelInterest.Some? then Scripted(ModelFollowUp(s.modelInterest.value))
    else Scripted(ModelPrompt(name))
  }

  /** The phone request appended from message 4 on while a model is known and no phone is. */
  function PhoneRequestTail(s: Session): string {
    if s.messages >= 4 && !Filled(s.userPhone) && s.modelInterest.Some? then PhoneRequest else ""
  }

  /** `captured` is switched on once the lead is complete and never off. */
  function WithCapture(s: Session): Session {
    if HasCompleteLead(s) && !s.captured then s.(captured := true) else s
  }

  /** The session after the detections of lines 50-72. */
  function Detected(s: Session, entry: HistoryEntry): Session {
    var lower := Normalize(entry.user);
    WithShortName(WithPhone(WithSurface(WithModel(Record(s, entry), lower), entry.user), entry.user), entry.user)
  }

  /** One turn of the `/process` handler for a valid request. */
  function Advance(s: Session, entry: HistoryEntry): Outcome {
    var intent := DetectIntent(Normalize(entry.user));
    var named := WithName(Detected(s, entry), entry.user);
    var response := Response(SelectReply(named, intent), PhoneRequestTail(named));
    var after := WithCapture(named);
    Outcome(
      response,
      after,
      Needs(IsExactly(response, NeedsSheets), IsExactly(response, NeedsPinecone), HasCompleteLead(named) && after.captured),
      intent,
      named.modelInterest)
  }
}
