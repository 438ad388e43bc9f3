/** Transaction intake, support feedback and history lookup over the card store,
    the suspicious-address set and the transaction log. */
module TransactionService {
  import opened Wrappers
  import opened Seqs
  import opened Classifications
  import opened Entities
  import opened Limits
  import opened TransactionValidator
  import CardValidator

  /** A transaction as posted; absent JSON fields are None. */
  datatype Request = Request(amount: Option<int>, number: Option<string>, ip: Option<string>, region: string, date: int)

  /** The repositories the service reads and writes. */
  datatype Store = Store(cards: map<string, Card>, suspiciousIPs: set<string>, log: seq<Transaction>)

  /** The map returned to the merchant: the result's name and the info string. */
  datatype Response = Response(result: string, info: string)

  /** Ids are issued in order from 1, the way the log grows. */
  predicate WellFormed(s: Store)
  {
    forall i :: 0 <= i < |s.log| ==> s.log[i].id == i + 1
  }

  /** The intake guard: missing amount, address or number, a non-positive amount,
      or an empty address or number. Nothing else about the fields is checked. */
  predicate Rejected(req: Request)
  {
    || req.amount.None? || req.ip.None? || req.number.None?
    || req.amount.value <= 0 || req.ip.value == "" || req.number.value == ""
  }

  /** `saveCardIfNotExists`: an unknown number gets an unlocked card with the
      default limits; a known card stays as it is. */
  function SaveCardIfNotExists(cards: map<string, Card>, number: string): (r: map<string, Card>)
    ensures r.Keys == cards.Keys + {number}
    ensures forall k :: k in cards ==> r[k] == cards[k]
    ensures number !in cards ==> r[number] == Card(number, false, DefaultAllowedLimit, DefaultManualLimit)
  {
    if number in cards then cards else cards[number := NewCard(number, false)]
  }

  /** `processTransaction`: guard, make sure the card exists, classify against
      the log as it was, then append the classified transaction. */
  function ProcessTransaction(store: Store, req: Request): (r: Result<(Store, Response)>)
    ensures r.Err? <==> Rejected(req)
    ensures r.Err? ==> r.status == BadRequest
    ensures r.Ok? ==>
      var (next, response) := r.value;
      var sub := Submission(req.amount.value, req.number.value, req.ip.value, req.region, req.date);
      && next.suspiciousIPs == store.suspiciousIPs
      && next.cards == SaveCardIfNotExists(store.cards, sub.number)
      && |next.log| == |store.log| + 1
      && next.log[..|store.log|] == store.log
      && var t := next.log[|store.log|];
         && t == Transaction(|store.log| + 1, sub.amount, sub.number, sub.ip, sub.region, sub.date, t.result, None)
         && response.result == Name(t.result)
         && (response.info == "none" <==> t.result == Allowed)
         && (t.result, response.info) == Classify(sub, next.cards, store.suspiciousIPs, store.log)
    ensures r.Ok? && WellFormed(store) ==> WellFormed(r.value.0)
  {
    if Rejected(req) then Err(BadRequest)
    else
      var sub := Submission(req.amount.value, req.number.value, req.ip.value, req.region, req.date);
      var cards := SaveCardIfNotExists(store.cards, sub.number);
      var (result, info) := Classify(sub, cards, store.suspiciousIPs, store.log);
      var t := Transaction(|store.log| + 1, sub.amount, sub.number, sub.ip, sub.region, sub.date, result, None);
      Ok((Store(cards, store.suspiciousIPs, store.log + [t]), Response(Name(result), info)))
  }

  /** `findById`: the position of the first transaction with this id. */
  function FindIndex(log: seq<Transaction>, id: int): (r: Option<nat>)
    ensures r.None? ==> forall t :: t in log ==> t.id != id
    ensures r.Some? ==> r.value < |log| && log[r.value].id == id
    ensures r.Some? ==> forall j :: 0 <= j < r.value ==> log[j].id != id
  {
    if log == [] then None
    else if log[0].id == id then Some(0)
    else match FindIndex(log[1..], id)
      case None => None
      case Some(i) => Some(i + 1)
  }

  /** `updateTransaction`: unknown id, malformed feedback, feedback already given
      and feedback equal to the result are refused in that order; otherwise the
      card's limits follow the feedback table and the feedback is recorded. A card
      that has disappeared from the store fails the internal assertion. */
  function UpdateTransaction(store: Store, id: int, feedback: string): (r: Result<(Store, Transaction)>)
    ensures FindIndex(store.log, id).None? ==> r == Err(NotFound)
    ensures FindIndex(store.log, id).Some? ==>
      var t := store.log[FindIndex(store.log, id).value];
      && (IsFeedbackWrongFormat(feedback) ==> r == Err(BadRequest))
      && (!IsFeedbackWrongFormat(feedback) && t.feedback.Some? ==> r == Err(Conflict))
      && (!IsFeedbackWrongFormat(feedback) && t.feedback.None? && Name(t.result) == feedback ==> r == Err(UnprocessableEntity))
      && (!IsFeedbackWrongFormat(feedback) && t.feedback.None? && Name(t.result) != feedback ==>
            (r.Ok? <==> t.number in store.cards) && (t.number !in store.cards ==> r == Err(ServerError)))
    ensures r.Ok? ==>
      var i := FindIndex(store.log, id).value;
      var t := store.log[i];
      var (next, updated) := r.value;
      && Parse(feedback).Some?
      && t.feedback.None? && t.result != Parse(feedback).value
      && t.number in store.cards
      && updated == t.(feedback := Parse(feedback))
      && updated.result == t.result
      && next.log == store.log[i := updated]
      && next.suspiciousIPs == store.suspiciousIPs
      && next.cards == store.cards[t.number := ApplyFeedback(store.cards[t.number], t.result, Parse(feedback).value, t.amount)]
    ensures r.Ok? && WellFormed(store) ==> WellFormed(r.value.0)
  {
    match FindIndex(store.log, id)
    case None => Err(NotFound)
    case Some(i) =>
      var t := store.log[i];
      if IsFeedbackWrongFormat(feedback) then Err(BadRequest)
      else if FeedbackText(t) != "" then Err(Conflict)
      else if Name(t.result) == feedback then Err(UnprocessableEntity)
      else if t.number !in store.cards then Err(ServerError)
      else
        var fb := Parse(feedback).value;
        var card := ApplyFeedback(store.cards[t.number], t.result, fb, t.amount);
        var updated := t.(feedback := Some(fb));
        Ok((Store(store.cards[t.number := card], store.suspiciousIPs, store.log[i := updated]), updated))
  }

  /** `getTransactionHistory`: a number failing the card check is a bad request, a
      number without transactions is not found, otherwise its transactions in log
      order. */
  function GetTransactionHistory(store: Store, number: string): (r: Result<seq<Transaction>>)
    ensures CardValidator.IsNonValid(Some(number)) ==> r == Err(BadRequest)
    ensures !CardValidator.IsNonValid(Some(number)) ==>
      (r == Err(NotFound) <==> forall t :: t in store.log ==> t.number != number)
    ensures r.Ok? <==> !CardValidator.IsNonValid(Some(number)) && exists t :: t in store.log && t.number == number
    ensures r.Ok? ==> forall t :: t in r.value <==> t in store.log && t.number == number
  {
    if CardValidator.IsNonValid(Some(number)) then Err(BadRequest)
    else
      var found := Filter(store.log, (t: Transaction) => t.number == number);
      if found == [] then Err(NotFound) else assert found[0] in found; Ok(found)
  }

  // ---------------------------------------------------------------------------
  // Consequences.

  /** A transaction accepted at intake shows up in its card's history, next to
      every earlier transaction of that card, whenever the number passes the
      card check. */
  lemma IntakeShowsInHistory(store: Store, req: Request)
    requires !Rejected(req) && !CardValidator.IsNonValid(Some(req.number.value))
    ensures
      ProcessTransaction(store, req).Ok? &&
      var next := ProcessTransaction(store, req).value.0;
      var history := GetTransactionHistory(next, req.number.value);
      && history.Ok?
      && next.log[|store.log|] in history.value
      && forall t :: t in store.log && t.number == req.number.value ==> t in history.value
  {
    var next := ProcessTransaction(store, req).value.0;
    assert next.log[|store.log|] in next.log;
    forall t | t in store.log
      ensures t in next.log
    {
      assert next.log[..|store.log|] == store.log;
      var k :| 0 <= k < |store.log| && store.log[k] == t;
      assert next.log[k] == t;
    }
  }

  /** Once feedback is recorded, any further well-formed feedback on the same
      transaction is a conflict. */
  lemma SecondFeedbackConflicts(store: Store, id: int, first: string, second: string)
    requires UpdateTransaction(store, id, first).Ok?
    ensures !IsFeedbackWrongFormat(second) ==>
      UpdateTransaction(UpdateTransaction(store, id, first).value.0, id, second) == Err(Conflict)
  {
    var next := UpdateTransaction(store, id, first).value.0;
    var i := FindIndex(store.log, id).value;
    FindIndexUnchanged(store.log, i, next.log[i]);
  }

  /** Replacing an entry by one with the same id leaves every id lookup unchanged. */
  lemma {:induction false} FindIndexUnchanged(log: seq<Transaction>, i: nat, t: Transaction)
    requires i < |log| && t.id == log[i].id
    ensures forall id :: FindIndex(log[i := t], id) == FindIndex(log, id)
  {
    if i > 0 {
      FindIndexUnchanged(log[1..], i - 1, t);
      assert log[i := t][1..] == log[1..][i - 1 := t];
    } else {
      assert log[i := t][1..] == log[1..];
    }
  }

  /** No sequence of feedback submissions changes any transaction's result. */
  lemma {:induction false} ResultsNeverChange(store: Store, feedback: seq<(int, string)>)
    ensures
      var final := ReplayFeedback(store, feedback);
      |final.log| == |store.log| && forall i :: 0 <= i < |store.log| ==> final.log[i].result == store.log[i].result
    decreases |feedback|
  {
    if feedback != [] {
      ResultsNeverChange(Next(store, feedback[0]), feedback[1..]);
    }
  }

  /** The store after one feedback submission, unchanged when it is refused. */
  function Next(store: Store, submission: (int, string)): (next: Store)
    ensures |next.log| == |store.log|
    ensures forall i :: 0 <= i < |store.log| ==> next.log[i].result == store.log[i].result
  {
    match UpdateTransaction(store, submission.0, submission.1)
    case Ok((next, _)) => next
    case Err(_) => store
  }

  /** The store after a series of feedback submissions. */
  function ReplayFeedback(store: Store, feedback: seq<(int, string)>): Store
    decreases |feedback|
  {
    if feedback == [] then store else ReplayFeedback(Next(store, feedback[0]), feedback[1..])
  }
}
