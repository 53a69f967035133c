/** A conversation is a sequence of turns on one session. These lemmas lift
    the per-turn facts to any number of turns. */
module Conversation {
  import opened Sessions
  import Turn

  /** The session after processing `entries` in order, starting from `s`. */
  function Run(s: Session, entries: seq<HistoryEntry>): Session
    decreases |entries|
  {
    if entries == [] then s else Run(Advance(s, entries[0]).session, entries[1..])
  }

  lemma AppendStep(h: seq<HistoryEntry>, e: HistoryEntry, rest: seq<HistoryEntry>, h': seq<HistoryEntry>)
    requires h' == h + [e]
    ensures h' + rest == h + ([e] + rest)
  {
  }

  /** After N messages the counter has grown by N and the history holds them in order. */
  lemma {:induction false} RunCounts(s: Session, entries: seq<HistoryEntry>)
    ensures Run(s, entries).id == s.id
    ensures Run(s, entries).messages == s.messages + |entries|
    ensures Run(s, entries).history == s.history + entries
    decreases |entries|
  {
    if entries != [] {
      var next := Advance(s, entries[0]).session;
      Turn.CountsOneMessage(s, entries[0]);
      RunCounts(next, entries[1..]);
      AppendStep(s.history, entries[0], entries[1..], next.history);
      assert [entries[0]] + entries[1..] == entries;
    }
  }

  /** A session created by `getSession` has counted exactly the messages sent to it. */
  lemma FreshSessionCounts(id: string, entries: seq<HistoryEntry>)
    ensures Run(NewSession(id), entries).messages == |entries|
    ensures Run(NewSession(id), entries).history == entries
  {
    RunCounts(NewSession(id), entries);
  }

  /** Once captured, always captured. */
  lemma {:induction false} CapturedStays(s: Session, entries: seq<HistoryEntry>)
    requires s.captured
    ensures Run(s, entries).captured
    decreases |entries|
  {
    if entries != [] {
      Turn.CapturedMonotone(s, entries[0]);
      CapturedStays(Advance(s, entries[0]).session, entries[1..]);
    }
  }

  /** A turn that completes the lead leaves the session captured for good. */
  lemma CompletedLeadStaysCaptured(s: Session, e: HistoryEntry, rest: seq<HistoryEntry>)
    requires HasCompleteLead(Advance(s, e).session)
    ensures Run(s, [e] + rest).captured
  {
    assert ([e] + rest)[1..] == rest;
    CapturedStays(Advance(s, e).session, rest);
  }

  /** A truthy phone is never overwritten by later messages. */
  lemma {:induction false} PhoneStays(s: Session, entries: seq<HistoryEntry>)
    requires Filled(s.userPhone)
    ensures Run(s, entries).userPhone == s.userPhone
    decreases |entries|
  {
    if entries != [] {
      Turn.PhoneFirstWriteWins(s, entries[0]);
      PhoneStays(Advance(s, entries[0]).session, entries[1..]);
    }
  }

  /** Whatever the messages, a stored phone holds only digits. */
  lemma {:induction false} PhoneDigitsStay(s: Session, entries: seq<HistoryEntry>)
    requires PhoneDigits(s)
    ensures PhoneDigits(Run(s, entries))
    decreases |entries|
  {
    if entries != [] {
      Turn.PhoneStaysDigits(s, entries[0]);
      PhoneDigitsStay(Advance(s, entries[0]).session, entries[1..]);
    }
  }

  /** After the second message the name never changes again. */
  lemma {:induction false} NameStays(s: Session, entries: seq<HistoryEntry>)
    requires s.messages >= 2
    ensures Run(s, entries).userName == s.userName
    decreases |entries|
  {
    if entries != [] {
      Turn.NameOnlyOnSecondMessage(s, entries[0]);
      Turn.CountsOneMessage(s, entries[0]);
      NameStays(Advance(s, entries[0]).session, entries[1..]);
    }
  }
}
