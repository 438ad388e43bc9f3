/** The three transaction results, ordered by severity, and their enum names. */
module Classifications {
  import opened Wrappers

  datatype Classification = Allowed | ManualProcessing | Prohibited

  /** ALLOWED < MANUAL_PROCESSING < PROHIBITED. */
  function Severity(c: Classification): nat
  {
    match c
    case Allowed => 0
    case ManualProcessing => 1
    case Prohibited => 2
  }

  /** The more severe of two classifications. */
  function Max(a: Classification, b: Classification): (r: Classification)
    ensures Severity(r) >= Severity(a) && Severity(r) >= Severity(b)
    ensures r == a || r == b
  {
    if Severity(a) >= Severity(b) then a else b
  }

  /** The enum constant's name, as `TransactionResult.name()` returns it. */
  function Name(c: Classification): string
  {
    match c
    case Allowed => "ALLOWED"
    case ManualProcessing => "MANUAL_PROCESSING"
    case Prohibited => "PROHIBITED"
  }

  /** `TransactionResult.valueOf`: the classification with the given name, if any. */
  function Parse(s: string): (r: Option<Classification>)
    ensures r.Some? <==> exists c :: Name(c) == s
    ensures r.Some? ==> Name(r.value) == s
  {
    if s == "ALLOWED" then assert Name(Allowed) == s; Some(Allowed)
    else if s == "MANUAL_PROCESSING" then assert Name(ManualProcessing) == s; Some(ManualProcessing)
    else if s == "PROHIBITED" then assert Name(Prohibited) == s; Some(Prohibited)
    else None
  }

  /** Names are distinct, so parsing a name gives back the classification. */
  lemma ParseName(c: Classification)
    ensures Parse(Name(c)) == Some(c)
  {
  }

  /** `isFeedbackWrongFormat`: true exactly when no result carries this name. */
  function IsFeedbackWrongFormat(feedback: string): (wrong: bool)
    ensures wrong <==> forall c :: Name(c) != feedback
  {
    Parse(feedback).None?
  }
}
