/** Feedback-driven adaptation of a card's limits: each limit moves a fifth of
    the way towards (or away by) the transaction's amount, rounded up. */
module Limits {
  import opened Classifications
  import opened Entities

  const IntMin: int := -0x8000_0000
  const IntMax: int := 0x7fff_ffff

  predicate InIntRange(x: int)
  {
    IntMin <= x <= IntMax
  }

  /** Java's `(int)` cast of a double: out-of-range values saturate. */
  function SaturateInt(x: int): (r: int)
    ensures InIntRange(r)
    ensures InIntRange(x) ==> r == x
    ensures x > IntMax ==> r == IntMax
    ensures x < IntMin ==> r == IntMin
  {
    if x > IntMax then IntMax else if x < IntMin then IntMin else x
  }

  /** The least integer not below n / 5. */
  function CeilFifth(n: int): (r: int)
    ensures 5 * r >= n
    ensures 5 * (r - 1) < n
  {
    (n + 4) / 5
  }

  /** ceil(0.8 * limit + 0.2 * amount), computed exactly. */
  function Increased(limit: int, amount: int): (r: int)
    ensures InIntRange(limit) && limit <= amount ==> limit <= r <= amount
    ensures InIntRange(limit) && InIntRange(amount) && amount <= limit ==> amount <= r <= limit
  {
    SaturateInt(CeilFifth(4 * limit + amount))
  }

  /** ceil(0.8 * limit - 0.2 * amount), computed exactly. */
  function Decreased(limit: int, amount: int): (r: int)
    ensures InIntRange(limit) && limit >= 0 && 0 <= amount ==> r <= limit
    ensures InIntRange(limit) && limit >= 0 && 5 <= amount ==> r < limit
  {
    SaturateInt(CeilFifth(4 * limit - amount))
  }

  /** `changeLimit`: the six-row table keyed by (result, feedback). */
  function ApplyFeedback(card: Card, result: Classification, feedback: Classification, amount: int): (r: Card)
    // The number and the stolen flag never change.
    ensures r.number == card.number && r.locked == card.locked
    // The allowed limit moves exactly when the correction crosses the ALLOWED
    // boundary: up when the feedback is ALLOWED, down when the result was.
    ensures r.allowedLimit ==
      if result != feedback && feedback == Allowed then Increased(card.allowedLimit, amount)
      else if result != feedback && result == Allowed then Decreased(card.allowedLimit, amount)
      else card.allowedLimit
    // The manual limit moves exactly when the correction crosses the PROHIBITED
    // boundary: down when the feedback is PROHIBITED, up when the result was.
    ensures r.manualLimit ==
      if result != feedback && feedback == Prohibited then Decreased(card.manualLimit, amount)
      else if result != feedback && result == Prohibited then Increased(card.manualLimit, amount)
      else card.manualLimit
  {
    var increasedAllowed := Increased(card.allowedLimit, amount);
    var decreasedAllowed := Decreased(card.allowedLimit, amount);
    var increasedManual := Increased(card.manualLimit, amount);
    var decreasedManual := Decreased(card.manualLimit, amount);
    if feedback == ManualProcessing && result == Allowed then
      card.(allowedLimit := decreasedAllowed)
    else if feedback == Prohibited && result == Allowed then
      card.(allowedLimit := decreasedAllowed, manualLimit := decreasedManual)
    else if feedback == Allowed && result == ManualProcessing then
      card.(allowedLimit := increasedAllowed)
    else if feedback == Prohibited && result == ManualProcessing then
      card.(manualLimit := decreasedManual)
    else if feedback == Allowed && result == Prohibited then
      card.(allowedLimit := increasedAllowed, manualLimit := increasedManual)
    else if feedback == ManualProcessing && result == Prohibited then
      card.(manualLimit := increasedManual)
    else
      assert result == feedback;
      card
  }

  /** A correction towards more severity never raises a non-negative limit; one
      towards less severity never lowers a limit that does not exceed the amount. */
  lemma FeedbackDirection(card: Card, result: Classification, feedback: Classification, amount: int)
    requires InIntRange(card.allowedLimit) && InIntRange(card.manualLimit) && amount > 0
    requires card.allowedLimit >= 0 && card.manualLimit >= 0
    ensures Severity(feedback) > Severity(result) ==>
      var r := ApplyFeedback(card, result, feedback, amount);
      r.allowedLimit <= card.allowedLimit && r.manualLimit <= card.manualLimit
    ensures Severity(feedback) < Severity(result) && card.allowedLimit <= amount && card.manualLimit <= amount ==>
      var r := ApplyFeedback(card, result, feedback, amount);
      r.allowedLimit >= card.allowedLimit && r.manualLimit >= card.manualLimit
  {
  }

  /** The worked example: limits 200/1500, amount 1000, PROHIBITED corrected to
      ALLOWED gives ceil(160 + 200) = 360 and ceil(1200 + 200) = 1400. */
  lemma ProhibitedToAllowedExample()
    ensures ApplyFeedback(NewCard("4000008449433403", false), Prohibited, Allowed, 1000)
         == Card("4000008449433403", false, 360, 1400)
  {
  }
}
