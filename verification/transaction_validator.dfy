/** The risk classifier: four heuristics applied in a fixed order to a new
    transaction, starting from ALLOWED with no reasons. */
module TransactionValidator {
  import opened Wrappers
  import opened Seqs
  import opened Classifications
  import opened Reasons
  import opened Entities

  /** A transaction that passed the intake checks, before it is classified. */
  datatype Submission = Submission(amount: int, number: string, ip: string, region: string, date: int)

  /** Length of the correlation window, in seconds. */
  const WindowSeconds: int := 3600

  /** `findAllByDateBetweenAndNumber(date - 1h, date, number)`: the stored
      transactions of the card dated in [date - 1h, date], both ends included. */
  function Window(history: seq<Transaction>, number: string, date: int): (w: seq<Transaction>)
    ensures forall t :: t in w <==> t in history && t.number == number && date - WindowSeconds <= t.date <= date
  {
    Filter(history, (t: Transaction) => t.number == number && date - WindowSeconds <= t.date <= date)
  }

  /** The distinct regions of the window other than the current one. */
  function OtherRegions(window: seq<Transaction>, region: string): (rs: set<string>)
    ensures forall x :: x in rs <==> x != region && exists t :: t in window && t.region == x
  {
    set t | t in window && t.region != region :: t.region
  }

  /** The distinct IP addresses of the window other than the current one. */
  function OtherIps(window: seq<Transaction>, ip: string): (ips: set<string>)
    ensures forall x :: x in ips <==> x != ip && exists t :: t in window && t.ip == x
  {
    set t | t in window && t.ip != ip :: t.ip
  }

  /** What the heuristics look at, read from the stores once. */
  datatype Signals = Signals(
    stolen: bool,
    suspicious: bool,
    regionCount: nat,
    ipCount: nat,
    amount: int,
    allowedLimit: int,
    manualLimit: int)

  /** The evaluator's working state: the current result and the reason set. */
  datatype Verdict = Verdict(result: Classification, reasons: set<Reason>)

  // ---------------------------------------------------------------------------
  // The rules as a reference: each triggered rule has a level, and the result is
  // the highest level triggered.

  function FlagLevel(flag: bool): Classification
  {
    if flag then Prohibited else Allowed
  }

  /** Two distinct other values call for review, more than two prohibit. */
  function CorrelationLevel(count: nat): Classification
  {
    if count > 2 then Prohibited else if count == 2 then ManualProcessing else Allowed
  }

  /** Above the manual limit prohibits; above the allowed limit calls for review. */
  function AmountLevel(amount: int, allowedLimit: int, manualLimit: int): Classification
  {
    if amount > manualLimit then Prohibited
    else if amount > allowedLimit then ManualProcessing
    else Allowed
  }

  function ExpectedResult(s: Signals): Classification
  {
    Max(Max(Max(FlagLevel(s.stolen), FlagLevel(s.suspicious)),
            Max(CorrelationLevel(s.regionCount), CorrelationLevel(s.ipCount))),
        AmountLevel(s.amount, s.allowedLimit, s.manualLimit))
  }

  /** The reasons the classifier reports. A blocklist hit always shows. A
      two-value correlation shows only when no blocklist hit came before it; a
      larger one always shows. The amount shows when it prohibits, or when it calls
      for review and nothing before it prohibited. An amount above the manual limit
      with nothing before it prohibiting is reported alone. ALLOWED reports "none". */
  function ExpectedReasons(s: Signals): set<Reason>
  {
    var early := s.stolen || s.suspicious;
    var hard := early || s.regionCount > 2 || s.ipCount > 2;
    if ExpectedResult(s) == Allowed then {NoReason}
    else if s.amount > s.manualLimit && !hard then {Amount}
    else
      (if s.stolen then {CardNumber} else {})
      + (if s.suspicious then {IP} else {})
      + (if s.regionCount > 2 || (s.regionCount == 2 && !early) then {RegionCorrelation} else {})
      + (if s.ipCount > 2 || (s.ipCount == 2 && !early) then {IPCorrelation} else {})
      + (if s.amount > s.manualLimit || (s.amount > s.allowedLimit && !hard) then {Amount} else {})
  }

  // ---------------------------------------------------------------------------
  // The heuristics, in the order the classifier applies them.

  /** A card on the stolen list prohibits and reports "card-number". */
  function CheckIfStolenCard(v: Verdict, stolen: bool): (r: Verdict)
    ensures Severity(r.result) >= Severity(v.result) && v.reasons <= r.reasons
    ensures stolen ==> r.result == Prohibited && r.reasons == v.reasons + {CardNumber}
    ensures !stolen ==> r == v
  {
    if stolen then Verdict(Prohibited, v.reasons + {CardNumber}) else v
  }

  /** An address on the suspicious list prohibits and reports "ip". */
  function CheckIfSuspiciousIP(v: Verdict, suspicious: bool): (r: Verdict)
    ensures Severity(r.result) >= Severity(v.result) && v.reasons <= r.reasons
    ensures suspicious ==> r.result == Prohibited && r.reasons == v.reasons + {IP}
    ensures !suspicious ==> r == v
  {
    if suspicious then Verdict(Prohibited, v.reasons + {IP}) else v
  }

  /** Both "exactly two" checks run before both "more than two" checks; only the
      former respect an earlier PROHIBITED. */
  function CheckIfCorrelationExists(v: Verdict, regionCount: nat, ipCount: nat): (r: Verdict)
    ensures Severity(r.result) >= Severity(v.result) && v.reasons <= r.reasons
    ensures Severity(r.result) >= Severity(CorrelationLevel(regionCount))
    ensures Severity(r.result) >= Severity(CorrelationLevel(ipCount))
    ensures (regionCount > 2 || ipCount > 2) ==> r.result == Prohibited
    ensures regionCount < 2 && ipCount < 2 ==> r == v
    // The result is the more severe of the incoming one and both counts' levels.
    ensures r.result == Max(v.result, Max(CorrelationLevel(regionCount), CorrelationLevel(ipCount)))
    // A larger count is always reported; a count of exactly two only when the
    // incoming result was not already PROHIBITED. No other reason changes.
    ensures RegionCorrelation in r.reasons <==>
      RegionCorrelation in v.reasons || regionCount > 2 || (regionCount == 2 && v.result != Prohibited)
    ensures IPCorrelation in r.reasons <==>
      IPCorrelation in v.reasons || ipCount > 2 || (ipCount == 2 && v.result != Prohibited)
    ensures r.reasons - {RegionCorrelation, IPCorrelation} == v.reasons - {RegionCorrelation, IPCorrelation}
  {
    var v1 := if regionCount == 2 && v.result != Prohibited
      then Verdict(ManualProcessing, v.reasons + {RegionCorrelation}) else v;
    var v2 := if ipCount == 2 && v1.result != Prohibited
      then Verdict(ManualProcessing, v1.reasons + {IPCorrelation}) else v1;
    var v3 := if regionCount > 2 then Verdict(Prohibited, v2.reasons + {RegionCorrelation}) else v2;
    if ipCount > 2 then Verdict(Prohibited, v3.reasons + {IPCorrelation}) else v3
  }

  /** The amount against the card's limits. Above the manual limit the result is
      PROHIBITED and, unless it already was, "amount" replaces every earlier reason. */
  function CheckIfAmountIsTooHigh(v: Verdict, amount: int, allowedLimit: int, manualLimit: int): (r: Verdict)
    ensures Severity(r.result) >= Severity(v.result)
    ensures Severity(r.result) >= Severity(AmountLevel(amount, allowedLimit, manualLimit))
    ensures amount > manualLimit ==> r.result == Prohibited
    ensures amount > manualLimit && v.result != Prohibited ==> r.reasons == {Amount}
    ensures amount > manualLimit && v.result == Prohibited ==> r.reasons == v.reasons + {Amount}
    ensures allowedLimit < amount <= manualLimit && v.result != Prohibited ==>
      r == Verdict(ManualProcessing, v.reasons + {Amount})
    ensures amount <= allowedLimit && allowedLimit <= manualLimit ==> r == v
    ensures amount <= allowedLimit && amount <= manualLimit ==> r == v
    ensures amount <= manualLimit && v.result == Prohibited ==> r == v
  {
    var v1 := if amount > allowedLimit && amount <= manualLimit && v.result != Prohibited
      then Verdict(ManualProcessing, v.reasons + {Amount}) else v;
    if amount > manualLimit then
      var kept := if v1.result != Prohibited then {} else v1.reasons;
      Verdict(Prohibited, kept + {Amount})
    else v1
  }

  /** `formatInfo` adds "none" to the reasons of an ALLOWED transaction. */
  function AddNone(v: Verdict): (r: Verdict)
    ensures r.result == v.result
    ensures r.reasons == if v.result == Allowed then v.reasons + {NoReason} else v.reasons
  {
    if v.result == Allowed then Verdict(v.result, v.reasons + {NoReason}) else v
  }

  /** The four heuristics in order from ALLOWED with no reasons, then "none". */
  function Decide(s: Signals): (v: Verdict)
    ensures v.result == ExpectedResult(s)
    ensures v.reasons == ExpectedReasons(s)
  {
    var v0 := Verdict(Allowed, {});
    var v1 := CheckIfStolenCard(v0, s.stolen);
    var v2 := CheckIfSuspiciousIP(v1, s.suspicious);
    var v3 := CheckIfCorrelationExists(v2, s.regionCount, s.ipCount);
    var v4 := CheckIfAmountIsTooHigh(v3, s.amount, s.allowedLimit, s.manualLimit);
    AddNone(v4)
  }

  /** The signals of a submission against the stores. */
  function SignalsOf(sub: Submission, cards: map<string, Card>, suspiciousIPs: set<string>, history: seq<Transaction>): Signals
    requires sub.number in cards
  {
    var card := cards[sub.number];
    var window := Window(history, sub.number, sub.date);
    Signals(
      card.locked,
      sub.ip in suspiciousIPs,
      |OtherRegions(window, sub.region)|,
      |OtherIps(window, sub.ip)|,
      sub.amount,
      card.allowedLimit,
      card.manualLimit)
  }

  /** `verifyTransaction`: the classification and reason set of a submission. The
      card must exist; the caller creates it beforehand. */
  function Evaluate(sub: Submission, cards: map<string, Card>, suspiciousIPs: set<string>, history: seq<Transaction>): (v: Verdict)
    requires sub.number in cards
    ensures cards[sub.number].locked ==> v.result == Prohibited && CardNumber in v.reasons
    ensures sub.ip in suspiciousIPs ==> v.result == Prohibited && IP in v.reasons
    ensures v.result == Allowed <==> v.reasons == {NoReason}
    ensures v.result != Allowed ==> v.reasons != {} && NoReason !in v.reasons
    ensures v.result == Allowed <==>
      var window := Window(history, sub.number, sub.date);
      && !cards[sub.number].locked
      && sub.ip !in suspiciousIPs
      && |OtherRegions(window, sub.region)| < 2
      && |OtherIps(window, sub.ip)| < 2
      && sub.amount <= cards[sub.number].allowedLimit
      && sub.amount <= cards[sub.number].manualLimit
  {
    var s := SignalsOf(sub, cards, suspiciousIPs, history);
    ExpectedFacts(s);
    Decide(s)
  }

  /** The reference result and reasons, read off the signals. */
  lemma ExpectedFacts(s: Signals)
    ensures s.stolen ==> ExpectedResult(s) == Prohibited && CardNumber in ExpectedReasons(s)
    ensures s.suspicious ==> ExpectedResult(s) == Prohibited && IP in ExpectedReasons(s)
    ensures ExpectedResult(s) == Allowed <==> ExpectedReasons(s) == {NoReason}
    ensures ExpectedResult(s) != Allowed ==> ExpectedReasons(s) != {} && NoReason !in ExpectedReasons(s)
    ensures ExpectedResult(s) == Allowed <==>
      !s.stolen && !s.suspicious && s.regionCount < 2 && s.ipCount < 2
      && s.amount <= s.allowedLimit && s.amount <= s.manualLimit
  {
  }

  /** The result and the info string reported for a submission. */
  function Classify(sub: Submission, cards: map<string, Card>, suspiciousIPs: set<string>, history: seq<Transaction>): (r: (Classification, string))
    requires sub.number in cards
    ensures r.1 == "none" <==> r.0 == Allowed
    ensures r.0 == Evaluate(sub, cards, suspiciousIPs, history).result
    ensures r.1 == Join(SortedTexts(Evaluate(sub, cards, suspiciousIPs, history).reasons))
  {
    var v := Evaluate(sub, cards, suspiciousIPs, history);
    (v.result, Info(v.reasons))
  }

  // ---------------------------------------------------------------------------
  // Consequences.

  /** A two-region correlation recorded before a larger IP correlation raised the
      result to PROHIBITED is still reported. */
  lemma EarlierCorrelationReasonSurvives(s: Signals)
    requires !s.stolen && !s.suspicious && s.regionCount == 2 && s.ipCount > 2
    ensures Decide(s).result == Prohibited
    ensures RegionCorrelation in Decide(s).reasons && IPCorrelation in Decide(s).reasons
  {
  }

  /** Limits are not kept ordered by feedback; once the allowed limit passes the
      manual limit an amount at or below the allowed limit can be PROHIBITED. */
  lemma CrossedLimitsProhibitSmallAmounts()
    ensures CheckIfAmountIsTooHigh(Verdict(Allowed, {}), 180, 200, 148) == Verdict(Prohibited, {Amount})
  {
  }
}
