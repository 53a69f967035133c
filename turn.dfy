/** What one turn does to a session and what it answers, stated about
    `Advance` for every session and every message. */
module Turn {
  import opened Wrappers
  import opened Text
  import opened Scanners
  import opened Detect
  import opened Sessions

  /** Each turn counts exactly one message and appends exactly one history entry. */
  lemma CountsOneMessage(s: Session, e: HistoryEntry)
    ensures Advance(s, e).session.id == s.id
    ensures Advance(s, e).session.messages == s.messages + 1
    ensures Advance(s, e).session.history == s.history + [e]
  {
  }

  /** The model is overwritten by the first keyword of `ModelRules` found in
      the normalized message and kept when none is found; the reported model
      is the stored one. */
  lemma ModelFollowsMessage(s: Session, e: HistoryEntry)
    ensures var found := FirstRule(Normalize(e.user), ModelRules);
      Advance(s, e).session.modelInterest == (if found.Some? then found else s.modelInterest)
    ensures Advance(s, e).model == Advance(s, e).session.modelInterest
  {
    DetectModelFollowsRules(Normalize(e.user));
  }

  /** The surface is overwritten by every match of the hectare pattern and kept otherwise. */
  lemma SurfaceFollowsMessage(s: Session, e: HistoryEntry)
    ensures var found := MatchSurface(e.user);
      Advance(s, e).session.surfaceHA == (if found.Some? then found else s.surfaceHA)
  {
  }

  /** The phone is first-write-wins: a truthy phone is never replaced, and an
      absent or empty one is replaced by the digits of the phone match. */
  lemma PhoneFirstWriteWins(s: Session, e: HistoryEntry)
    ensures Filled(s.userPhone) ==> Advance(s, e).session.userPhone == s.userPhone
    ensures !Filled(s.userPhone) ==>
      Advance(s, e).session.userPhone ==
        (if MatchPhone(e.user).Some? then Some(StripNonDigits(MatchPhone(e.user).value)) else s.userPhone)
  {
  }

  /** A stored phone holds digits only, and every turn keeps it so. */
  lemma PhoneStaysDigits(s: Session, e: HistoryEntry)
    requires PhoneDigits(s)
    ensures PhoneDigits(Advance(s, e).session)
  {
    var phone := Advance(s, e).session.userPhone;
    PhoneFirstWriteWins(s, e);
    if phone != s.userPhone {
      var m := MatchPhone(e.user).value;
      assert phone == Some(StripNonDigits(m));
      StripNonDigitsSpec(m);
    }
  }

  /** The name changes only on message 2, and then only if it was falsy: it
      becomes the trimmed message whatever the message's length. */
  lemma NameOnlyOnSecondMessage(s: Session, e: HistoryEntry)
    ensures s.messages != 1 ==> Advance(s, e).session.userName == s.userName
    ensures s.messages == 1 ==>
      Advance(s, e).session.userName == (if Filled(s.userName) then s.userName else Some(Trim(e.user)))
  {
  }

  /** The first message is answered with the greeting, whatever it says. */
  lemma FirstMessageGreets(s: Session, e: HistoryEntry)
    requires s.messages == 0
    ensures Advance(s, e).response == Response(Scripted(Greeting), "")
  {
  }

  /** The second message is taken as the name and answered by name. */
  lemma SecondMessageTakesName(s: Session, e: HistoryEntry)
    requires s.messages == 1 && !Filled(s.userName)
    ensures Advance(s, e).session.userName == Some(Trim(e.user))
    ensures Advance(s, e).response == Response(Scripted(NameAck(Trim(e.user))), "")
  {
  }

  /** On message 3 with no model known the model list is shown, whatever the intent. */
  lemma ThirdMessageListsModels(s: Session, e: HistoryEntry)
    requires s.messages == 2
    ensures var o := Advance(s, e);
      o.model.None? ==> o.response == Response(Scripted(ModelMenu(DisplayName(o.session.userName))), "")
  {
  }

  /** A demo request past the opening lists what is still needed, showing a
      truthy surface and otherwise "pending". */
  lemma DemoShowsSurface(s: Session, e: HistoryEntry)
    ensures var o := Advance(s, e);
      o.intent == Demo && o.session.messages >= 3 && (o.session.messages > 3 || o.model.Some?) ==>
        o.response.base ==
          Scripted(DemoChecklist(DisplayName(o.session.userName),
                                 if o.session.surfaceHA.Some? && o.session.surfaceHA.value > 0 then o.session.surfaceHA else None))
  {
  }

  /** A price request past the opening with no model known is answered by
      asking which model the price is for. */
  lemma PriceWithoutModelAsksModel(s: Session, e: HistoryEntry)
    ensures var o := Advance(s, e);
      o.intent == Price && o.model.None? && o.session.messages > 3 ==>
        o.response.base == Scripted(PriceModelPrompt(DisplayName(o.session.userName)))
  {
  }

  /** A financing request past the opening gets the financing plans. */
  lemma FinancingGetsPlans(s: Session, e: HistoryEntry)
    ensures var o := Advance(s, e);
      o.intent == Financing && o.session.messages >= 3 && (o.session.messages > 3 || o.model.Some?) ==>
        o.response.base == Scripted(FinancingPlans(DisplayName(o.session.userName)))
  {
  }

  /** Past the opening, a message matching no keyword group gets the follow-up
      question about the known model, or the question which model interests;
      a performance question with no model known gets the latter too. */
  lemma GeneralFallback(s: Session, e: HistoryEntry)
    ensures var o := Advance(s, e);
      (o.intent == General || (o.intent == Performance && o.model.None?)) && o.session.messages >= 3 && (o.session.messages > 3 || o.model.Some?) ==>
        o.response.base == (if o.model.Some? then Scripted(ModelFollowUp(o.model.value))
                            else Scripted(ModelPrompt(DisplayName(o.session.userName))))
  {
  }

  /** The intent reported is the keyword classification of the normalized message. */
  lemma IntentFollowsMessage(s: Session, e: HistoryEntry)
    ensures Advance(s, e).intent == FirstRule(Normalize(e.user), IntentRules).GetOr(General)
  {
    DetectIntentFollowsRules(Normalize(e.user));
  }

  /** A price keyword anywhere in the message, in any case and with or
      without accents (`Precio`, `CUÁNTO`), makes the intent price. */
  lemma PriceWordMeansPrice(s: Session, e: HistoryEntry, w: string)
    ensures Contains(e.user, w) && Normalize(w) in IntentRules[0].keywords ==> Advance(s, e).intent == Price
  {
    if Contains(e.user, w) && Normalize(w) in IntentRules[0].keywords {
      NormalizeKeepsOccurrences(e.user, w);
      FiresOn(Normalize(e.user), IntentRules[0].keywords, Price);
      assert Normalize(w) == IntentRules[0].keywords[0] || Normalize(w) == IntentRules[0].keywords[1]
        || Normalize(w) == IntentRules[0].keywords[2];
      IntentPriority(Normalize(e.user));
    }
  }

  /** In particular a message containing `precio` asks for a price. */
  lemma PrecioMeansPrice(s: Session, e: HistoryEntry)
    ensures Contains(e.user, "precio") ==> Advance(s, e).intent == Price
  {
    NormalizeKeepsUnfolded("precio");
    PriceWordMeansPrice(s, e, "precio");
  }

  /** A message naming the T25 in any case (`t25`, `T25`) makes it the model of
      interest, whatever else the message names. */
  lemma T25WordNamesT25(s: Session, e: HistoryEntry, w: string)
    ensures Contains(e.user, w) && Normalize(w) == "t25" ==>
      Advance(s, e).model == Some(T25P) && Advance(s, e).session.modelInterest == Some(T25P)
  {
    NormalizeKeepsOccurrences(e.user, w);
  }

  /** In particular `T25` in capitals names the T25P. */
  lemma CapitalT25NamesT25(s: Session, e: HistoryEntry)
    ensures Contains(e.user, "T25") ==> Advance(s, e).model == Some(T25P)
  {
    NormalizeAppend("T", "25");
    NormalizeKeepsUnfolded("25");
    assert "T" + "25" == "T25";
    assert Normalize("T") == "t" by { FoldsToPlainLetter('T'); assert "T" == ['T']; }
    assert "t" + "25" == "t25";
    T25WordNamesT25(s, e, "T25");
  }

  /** The pricing sentinel is chosen exactly from message 3 on, for intent
      price with a known model. */
  lemma SheetsSentinelChosen(s: Session, e: HistoryEntry)
    ensures var o := Advance(s, e);
      o.response.base == Sentinel(NeedsSheets) <==>
        o.session.messages >= 3 && o.intent == Price && o.model.Some?
  {
  }

  /** The specification sentinel is chosen exactly from message 3 on, for
      intent performance with a known model. */
  lemma PineconeSentinelChosen(s: Session, e: HistoryEntry)
    ensures var o := Advance(s, e);
      o.response.base == Sentinel(NeedsPinecone) <==>
        o.session.messages >= 3 && o.intent == Performance && o.model.Some?
  {
  }

  lemma SentinelsDiffer()
    ensures NeedsSheets != NeedsPinecone
    ensures NeedsSheets + PhoneRequest != NeedsSheets && NeedsPinecone + PhoneRequest != NeedsPinecone
    ensures NeedsSheets + PhoneRequest != NeedsPinecone && NeedsPinecone + PhoneRequest != NeedsSheets
  {
    assert NeedsSheets[9] != NeedsPinecone[9];
    assert |NeedsSheets + PhoneRequest| > |NeedsPinecone|;
    assert |NeedsPinecone + PhoneRequest| > |NeedsSheets|;
  }

  /** The phone request is appended exactly from message 4 on while no phone
      is stored and a model is known; a response carrying it equals no
      sentinel, so neither lookup is signalled on such a turn. */
  lemma PhoneRequestHidesSentinels(s: Session, e: HistoryEntry)
    ensures var o := Advance(s, e);
      (o.response.tail == PhoneRequest <==>
        o.session.messages >= 4 && !Filled(o.session.userPhone) && o.model.Some?)
      && (o.response.tail != PhoneRequest ==> o.response.tail == "")
    ensures var o := Advance(s, e);
      o.response.tail != "" ==> !o.needs.sheets && !o.needs.pinecone
  {
    SentinelsDiffer();
  }

  /** `needs.sheets` holds exactly when the pricing sentinel is chosen and no
      phone request follows it. */
  lemma NeedsSheetsExactly(s: Session, e: HistoryEntry)
    ensures var o := Advance(s, e);
      o.needs.sheets <==>
        && o.session.messages >= 3 && o.intent == Price && o.model.Some?
        && (o.session.messages == 3 || Filled(o.session.userPhone))
  {
    SentinelsDiffer();
    SheetsSentinelChosen(s, e);
  }

  /** `needs.pinecone` holds exactly when the specification sentinel is chosen
      and no phone request follows it. */
  lemma NeedsPineconeExactly(s: Session, e: HistoryEntry)
    ensures var o := Advance(s, e);
      o.needs.pinecone <==>
        && o.session.messages >= 3 && o.intent == Performance && o.model.Some?
        && (o.session.messages == 3 || Filled(o.session.userPhone))
  {
    SentinelsDiffer();
    PineconeSentinelChosen(s, e);
  }

  /** `captured` never goes back to false, it is true after any turn that ends
      with a complete lead, and it changes on no other occasion. */
  lemma CapturedMonotone(s: Session, e: HistoryEntry)
    ensures s.captured ==> Advance(s, e).session.captured
    ensures HasCompleteLead(Advance(s, e).session) ==> Advance(s, e).session.captured
    ensures Advance(s, e).session.captured == (s.captured || HasCompleteLead(Advance(s, e).session))
  {
  }

  /** `needs.saveLead` is the completeness of the lead after the turn. */
  lemma SaveLeadIsCompleteLead(s: Session, e: HistoryEntry)
    ensures Advance(s, e).needs.saveLead == HasCompleteLead(Advance(s, e).session)
  {
  }
}
