/** The persisted records of the screening engine: cards and transactions. */
module Entities {
  import opened Wrappers
  import opened Classifications

  /** Limits a card starts with. */
  const DefaultAllowedLimit: int := 200
  const DefaultManualLimit: int := 1500

  /** A card record: its number, the "known stolen" flag and its two adaptive limits. */
  datatype Card = Card(number: string, locked: bool, allowedLimit: int, manualLimit: int)

  /** `new Card(number, locked)`: the field initialisers supply the default limits. */
  function NewCard(number: string, locked: bool): (card: Card)
    ensures card.number == number && card.locked == locked
    ensures card.allowedLimit == DefaultAllowedLimit && card.manualLimit == DefaultManualLimit
    ensures 0 < card.allowedLimit < card.manualLimit
  {
    Card(number, locked, DefaultAllowedLimit, DefaultManualLimit)
  }

  /** A stored transaction. Timestamps are whole seconds; `feedback` is None until
      support corrects the result. */
  datatype Transaction = Transaction(
    id: nat,
    amount: int,
    number: string,
    ip: string,
    region: string,
    date: int,
    result: Classification,
    feedback: Option<Classification>)

  /** `Transaction.getFeedback`: the feedback's name, or the empty string when unset. */
  function FeedbackText(t: Transaction): (text: string)
    ensures text == "" <==> t.feedback.None?
    ensures t.feedback.Some? ==> Parse(text) == t.feedback
  {
    match t.feedback
    case None => ""
    case Some(c) => ParseName(c); Name(c)
  }
}
