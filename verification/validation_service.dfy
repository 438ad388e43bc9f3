/** Blocklist management: suspicious IP addresses and stolen cards. */
module ValidationService {
  import opened Wrappers
  import opened Entities
  import IpValidator
  import CardValidator

  /** `saveSuspiciousIP`: a malformed address is a bad request, a listed one a
      conflict; otherwise exactly that address joins the set. */
  function SaveSuspiciousIP(ips: set<string>, ip: string): (r: Result<set<string>>)
    ensures !IpValidator.Accepts(ip) ==> r == Err(BadRequest)
    ensures IpValidator.Accepts(ip) && ip in ips ==> r == Err(Conflict)
    ensures r.Ok? <==> IpValidator.Accepts(ip) && ip !in ips
    ensures r.Ok? ==> r.value == ips + {ip} && |r.value| == |ips| + 1
  {
    if IpValidator.IsNonValidIp(ip) then Err(BadRequest)
    else if ip in ips then Err(Conflict)
    else Ok(ips + {ip})
  }

  /** `deleteSuspiciousIP`: a malformed address is a bad request, an unlisted one
      is not found; otherwise exactly that address leaves the set. */
  function DeleteSuspiciousIP(ips: set<string>, ip: string): (r: Result<set<string>>)
    ensures !IpValidator.Accepts(ip) ==> r == Err(BadRequest)
    ensures IpValidator.Accepts(ip) && ip !in ips ==> r == Err(NotFound)
    ensures r.Ok? <==> IpValidator.Accepts(ip) && ip in ips
    ensures r.Ok? ==> r.value == ips - {ip} && |r.value| == |ips| - 1
  {
    if IpValidator.IsNonValidIp(ip) then Err(BadRequest)
    else if ip !in ips then Err(NotFound)
    else Ok(ips - {ip})
  }

  /** Listing a fresh valid address and then removing it restores the set. */
  lemma SaveThenDeleteRestores(ips: set<string>, ip: string)
    requires SaveSuspiciousIP(ips, ip).Ok?
    ensures DeleteSuspiciousIP(SaveSuspiciousIP(ips, ip).value, ip) == Ok(ips)
  {
  }

  /** `saveStolenCard`: a number failing the card check is a bad request and a
      card already locked is a conflict. An unlocked card is locked with its limits
      kept; an unknown number gets a locked card with the default limits. */
  function SaveStolenCard(cards: map<string, Card>, number: string): (r: Result<(map<string, Card>, Card)>)
    ensures CardValidator.IsNonValid(Some(number)) ==> r == Err(BadRequest)
    ensures !CardValidator.IsNonValid(Some(number)) && number in cards && cards[number].locked ==> r == Err(Conflict)
    ensures r.Ok? ==>
      var (next, card) := r.value;
      && next == cards[number := card]
      && card.locked
      && (number in cards ==> card == cards[number].(locked := true))
      && (number !in cards ==> card == Card(number, true, DefaultAllowedLimit, DefaultManualLimit))
    ensures r.Ok? <==> !CardValidator.IsNonValid(Some(number)) && !(number in cards && cards[number].locked)
  {
    if CardValidator.IsNonValid(Some(number)) then Err(BadRequest)
    else if number in cards then
      if cards[number].locked then Err(Conflict)
      else
        var card := cards[number].(locked := true);
        Ok((cards[number := card], card))
    else
      var card := NewCard(number, true);
      Ok((cards[number := card], card))
  }

  /** `deleteStolenCard`: a number failing the card check is a bad request and an
      unknown one is not found. A locked card's whole record is removed, limits
      included; an unlocked card is left alone, yet success is still reported. */
  function DeleteStolenCard(cards: map<string, Card>, number: string): (r: Result<map<string, Card>>)
    ensures CardValidator.IsNonValid(Some(number)) ==> r == Err(BadRequest)
    ensures !CardValidator.IsNonValid(Some(number)) && number !in cards ==> r == Err(NotFound)
    ensures r.Ok? <==> !CardValidator.IsNonValid(Some(number)) && number in cards
    ensures r.Ok? && cards[number].locked ==> r.value == cards - {number} && number !in r.value
    ensures r.Ok? && !cards[number].locked ==> r.value == cards
  {
    if CardValidator.IsNonValid(Some(number)) then Err(BadRequest)
    else if number !in cards then Err(NotFound)
    else if cards[number].locked then Ok(cards - {number})
    else Ok(cards)
  }

  /** Reporting an unknown card stolen and then removing it restores the store. */
  lemma SaveThenDeleteStolenCardRestores(cards: map<string, Card>, number: string)
    requires number !in cards && SaveStolenCard(cards, number).Ok?
    ensures DeleteStolenCard(SaveStolenCard(cards, number).value.0, number) == Ok(cards)
  {
    var next := SaveStolenCard(cards, number).value.0;
    assert next - {number} == cards;
  }

  /** `getStolenCards`: exactly the locked cards. */
  function GetStolenCards(cards: map<string, Card>): (r: set<Card>)
    ensures forall c :: c in r <==> c.locked && exists k :: k in cards && cards[k] == c
  {
    set k | k in cards && cards[k].locked :: cards[k]
  }
}
