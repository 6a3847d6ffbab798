/**
 * Confirmation mails for one address: each request replaces the pending row unless the last mail
 * is too recent, and each accepted one gets a mail key of its own.
 */
module SignupRequests {
  import opened MailQueue
  import opened Wrappers

  const RESEND_INTERVAL := 60
  const TOKEN_TTL := 86400

  datatype PendingRow = PendingRow(id: nat, generation: nat, lastSent: int, expiresAt: int)

  datatype Receipt = Receipt(id: nat, generation: nat, at: int)

  /** Removal stands for a confirmation and for the clean-up of an expired row. */
  datatype Event = Request(now: int) | Remove

  datatype State = State(row: Option<PendingRow>, nextId: nat, receipts: seq<Receipt>)

  /** The upsert: None leaves everything as it was and sends nothing. */
  function Upserted(row: Option<PendingRow>, nextId: nat, now: int): Option<PendingRow>
  {
    match row
    case None => Some(PendingRow(nextId, 1, now, now + TOKEN_TTL))
    case Some(r) =>
      if r.lastSent <= now - RESEND_INTERVAL
      then Some(PendingRow(r.id, r.generation + 1, now, now + TOKEN_TTL))
      else None
  }

  function After(s: State, event: Event): State
  {
    match event
    case Remove => s.(row := None)
    case Request(now) =>
      var upserted := Upserted(s.row, s.nextId, now);
      if upserted.None? then s
      else
        State(upserted, if s.row.None? then s.nextId + 1 else s.nextId,
              s.receipts + [Receipt(upserted.value.id, upserted.value.generation, now)])
  }

  function Run(events: seq<Event>): State
  {
    if events == [] then State(None, 0, []) else After(Run(events[..|events| - 1]), events[|events| - 1])
  }

  /** Later receipts are of a later row, or of the same row at least a minute later per generation. */
  predicate Follows(a: Receipt, b: Receipt)
  {
    a.id < b.id || (a.id == b.id && a.generation < b.generation &&
                    a.at + RESEND_INTERVAL * (b.generation - a.generation) <= b.at)
  }

  ghost predicate Inv(s: State)
  {
    && (forall i, j :: 0 <= i < j < |s.receipts| ==> Follows(s.receipts[i], s.receipts[j]))
    && (forall i :: 0 <= i < |s.receipts| ==> s.receipts[i].id < s.nextId)
    && (s.row.Some? ==>
          s.receipts != [] &&
            s.receipts[|s.receipts| - 1] == Receipt(s.row.value.id, s.row.value.generation, s.row.value.lastSent))
  }

  lemma StepKeepsInv(s: State, event: Event)
    requires Inv(s)
    ensures Inv(After(s, event))
  {
    var s' := After(s, event);
    if |s'.receipts| > |s.receipts| {
      var last := s'.receipts[|s.receipts|];
      forall i | 0 <= i < |s.receipts|
        ensures Follows(s.receipts[i], last)
      {
        if s.row.Some? && i < |s.receipts| - 1 {
          assert Follows(s.receipts[i], s.receipts[|s.receipts| - 1]);
        }
      }
    }
  }

  lemma {:induction false} RunKeepsInv(events: seq<Event>)
    ensures Inv(Run(events))
  {
    if events != [] {
      RunKeepsInv(events[..|events| - 1]);
      StepKeepsInv(Run(events[..|events| - 1]), events[|events| - 1]);
    }
  }

  function KeyOf(r: Receipt): MailKey
  {
    Confirmation(r.id, r.generation)
  }

  /**
   * Whatever requests and removals happen: no two accepted requests share a mail key, so none of
   * their mails is suppressed; and mails for one pending row are at least a minute apart.
   */
  lemma ConfirmationsAreSpaced(events: seq<Event>)
    ensures var rs := Run(events).receipts;
            forall i, j :: 0 <= i < j < |rs| ==>
              KeyOf(rs[i]) != KeyOf(rs[j]) && (rs[i].id == rs[j].id ==> rs[j].at - rs[i].at >= 60)
  {
    RunKeepsInv(events);
    var rs := Run(events).receipts;
    forall i, j | 0 <= i < j < |rs|
      ensures KeyOf(rs[i]) != KeyOf(rs[j]) && (rs[i].id == rs[j].id ==> rs[j].at - rs[i].at >= RESEND_INTERVAL)
    {
      assert Follows(rs[i], rs[j]);
    }
  }
}
