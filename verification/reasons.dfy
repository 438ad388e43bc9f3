/** The diagnostic reasons a verdict carries and their rendering as the `info`
    string: a sorted, duplicate-free, ", "-joined list (a TreeSet of strings). */
module Reasons {

  datatype Reason = Amount | CardNumber | IP | IPCorrelation | NoReason | RegionCorrelation

  /** The string the classifier puts into its reason set. */
  function Text(r: Reason): string
  {
    match r
    case Amount => "amount"
    case CardNumber => "card-number"
    case IP => "ip"
    case IPCorrelation => "ip-correlation"
    case NoReason => "none"
    case RegionCorrelation => "region-correlation"
  }

  /** `String.compareTo(a, b) < 0`: character-wise comparison, a proper prefix first. */
  predicate LexLess(a: string, b: string)
    decreases |a|
  {
    if a == [] then b != []
    else if b == [] then false
    else if a[0] != b[0] then a[0] < b[0]
    else LexLess(a[1..], b[1..])
  }

  /** Strictly increasing in string order: sorted and free of duplicates. */
  predicate StrictlySorted(xs: seq<string>)
  {
    forall i, j :: 0 <= i < j < |xs| ==> LexLess(xs[i], xs[j])
  }

  /** The position of a reason's text in string order. */
  function Rank(r: Reason): nat
  {
    match r
    case Amount => 0
    case CardNumber => 1
    case IP => 2
    case IPCorrelation => 3
    case NoReason => 4
    case RegionCorrelation => 5
  }

  /** The reason of a given rank. */
  function Ranked(k: nat): (r: Reason)
    requires k < 6
    ensures Rank(r) == k
  {
    [Amount, CardNumber, IP, IPCorrelation, NoReason, RegionCorrelation][k]
  }

  /** Ranking reasons agrees with comparing their texts as Java strings. */
  lemma RankIsStringOrder(a: Reason, b: Reason)
    ensures Rank(a) < Rank(b) <==> LexLess(Text(a), Text(b))
  {
    assert LexLess("ip", "ip-correlation") by {
      assert "ip"[1..] == "p" && "ip-correlation"[1..] == "p-correlation";
      assert "p"[1..] == [] && "p-correlation"[1..] == "-correlation";
    }
    assert !LexLess("ip-correlation", "ip") by {
      assert "ip"[1..] == "p" && "ip-correlation"[1..] == "p-correlation";
      assert "p"[1..] == [] && "p-correlation"[1..] == "-correlation";
    }
    if a == b {
      LexIrreflexive(Text(a));
    } else if Text(a)[0] != Text(b)[0] {
      assert LexLess(Text(a), Text(b)) <==> Text(a)[0] < Text(b)[0];
    }
  }

  /** No string precedes itself. */
  lemma LexIrreflexive(s: string)
    ensures !LexLess(s, s)
  {
  }

  /** The reasons of `rs` whose rank is at least `from`, in increasing rank. */
  function SortedFrom(rs: set<Reason>, from: nat): (out: seq<Reason>)
    requires from <= 6
    decreases 6 - from
    ensures forall i :: 0 <= i < |out| ==> out[i] in rs && Rank(out[i]) >= from
    ensures forall i, j :: 0 <= i < j < |out| ==> Rank(out[i]) < Rank(out[j])
    ensures forall r :: r in rs && Rank(r) >= from ==> r in out
  {
    if from == 6 then []
    else
      var rest := SortedFrom(rs, from + 1);
      if Ranked(from) in rs then [Ranked(from)] + rest else rest
  }

  /** The texts of a sequence of reasons, position by position. */
  function TextsOf(ordered: seq<Reason>): (out: seq<string>)
    ensures |out| == |ordered|
    ensures forall i :: 0 <= i < |ordered| ==> out[i] == Text(ordered[i])
  {
    if ordered == [] then [] else [Text(ordered[0])] + TextsOf(ordered[1..])
  }

  /** The texts of a reason set in TreeSet iteration order. */
  function SortedTexts(rs: set<Reason>): (out: seq<string>)
    ensures StrictlySorted(out)
    ensures forall t :: t in out <==> exists r :: r in rs && Text(r) == t
    ensures |out| == |rs|
  {
    var ordered := SortedFrom(rs, 0);
    SortedTextsFacts(rs, ordered);
    TextsOf(ordered)
  }

  lemma SortedTextsFacts(rs: set<Reason>, ordered: seq<Reason>)
    requires ordered == SortedFrom(rs, 0)
    ensures StrictlySorted(TextsOf(ordered))
    ensures forall t :: t in TextsOf(ordered) <==> exists r :: r in rs && Text(r) == t
    ensures |TextsOf(ordered)| == |rs|
  {
    TextsSorted(ordered);
    TextsCover(rs, ordered);
    DistinctCardinality(rs, ordered);
  }

  lemma TextsSorted(ordered: seq<Reason>)
    requires forall i, j :: 0 <= i < j < |ordered| ==> Rank(ordered[i]) < Rank(ordered[j])
    ensures StrictlySorted(TextsOf(ordered))
  {
    var out := TextsOf(ordered);
    forall i, j | 0 <= i < j < |out|
      ensures LexLess(out[i], out[j])
    {
      RankIsStringOrder(ordered[i], ordered[j]);
    }
  }

  lemma TextsCover(rs: set<Reason>, ordered: seq<Reason>)
    requires forall i :: 0 <= i < |ordered| ==> ordered[i] in rs
    requires forall r :: r in rs ==> r in ordered
    ensures forall t :: t in TextsOf(ordered) <==> exists r :: r in rs && Text(r) == t
  {
    var out := TextsOf(ordered);
    forall t | exists r :: r in rs && Text(r) == t
      ensures t in out
    {
      var r :| r in rs && Text(r) == t;
      var i :| 0 <= i < |ordered| && ordered[i] == r;
      assert out[i] == t;
    }
    forall t | t in out
      ensures exists r :: r in rs && Text(r) == t
    {
      var i :| 0 <= i < |out| && out[i] == t;
      assert ordered[i] in rs;
    }
  }

  /** A rank-increasing listing of exactly the elements of a set has its size. */
  lemma DistinctCardinality(rs: set<Reason>, ordered: seq<Reason>)
    requires forall i :: 0 <= i < |ordered| ==> ordered[i] in rs
    requires forall i, j :: 0 <= i < j < |ordered| ==> Rank(ordered[i]) < Rank(ordered[j])
    requires forall r :: r in rs ==> r in ordered
    ensures |ordered| == |rs|
  {
    if ordered != [] {
      var head := ordered[0];
      var tail := ordered[1..];
      forall r | r in tail ensures r != head {}
      assert forall r :: r in rs - {head} ==> r in tail;
      DistinctCardinality(rs - {head}, tail);
    } else {
      assert forall r :: r !in rs;
      assert rs == {};
    }
  }

  /** `String.join(", ", parts)`. */
  function Join(parts: seq<string>): string
  {
    if |parts| == 0 then ""
    else if |parts| == 1 then parts[0]
    else parts[0] + ", " + Join(parts[1..])
  }

  /** Every reason text is at least two characters long, so joining two or more
      of them gives at least six characters. */
  lemma {:induction false} JoinLength(parts: seq<string>)
    requires forall i :: 0 <= i < |parts| ==> |parts[i]| >= 2
    ensures |parts| >= 1 ==> |Join(parts)| >= 2
    ensures |parts| >= 2 ==> |Join(parts)| >= 6
  {
    if |parts| >= 2 {
      JoinLength(parts[1..]);
    }
  }

  /** The reported info string of a reason set. */
  function Info(rs: set<Reason>): (info: string)
    ensures info == "none" <==> rs == {NoReason}
    ensures info == Join(SortedTexts(rs))
  {
    if rs == {NoReason} then
      OnlyNoneJoinsToNone();
      Join(SortedTexts(rs))
    else
      OtherSetsAreNotNone(rs);
      Join(SortedTexts(rs))
  }

  lemma OnlyNoneJoinsToNone()
    ensures Join(SortedTexts({NoReason})) == "none"
  {
    var texts := SortedTexts({NoReason});
    assert |texts| == 1;
    assert "none" in texts;
    assert texts == ["none"];
  }

  lemma OtherSetsAreNotNone(rs: set<Reason>)
    requires rs != {NoReason}
    ensures Join(SortedTexts(rs)) != "none"
  {
    var texts := SortedTexts(rs);
    if |texts| >= 2 {
      ManyTextsAreLong(rs, texts);
    } else if |texts| == 1 {
      OneText(rs, texts);
    } else {
      assert Join(texts) == "";
    }
  }

  lemma ManyTextsAreLong(rs: set<Reason>, texts: seq<string>)
    requires forall t :: t in texts <==> exists r :: r in rs && Text(r) == t
    requires |texts| >= 2
    ensures |Join(texts)| >= 6
  {
    forall i | 0 <= i < |texts| ensures |texts[i]| >= 2 {
      assert texts[i] in texts;
      var r :| r in rs && Text(r) == texts[i];
    }
    JoinLength(texts);
  }

  lemma OneText(rs: set<Reason>, texts: seq<string>)
    requires forall t :: t in texts <==> exists r :: r in rs && Text(r) == t
    requires |texts| == 1 && |rs| == 1 && rs != {NoReason}
    ensures Join(texts) != "none"
  {
    assert texts[0] in texts;
    var r :| r in rs && Text(r) == texts[0];
    SingletonSet(rs, r);
    assert Join(texts) == Text(r);
  }

  lemma SingletonSet(rs: set<Reason>, r: Reason)
    requires |rs| == 1 && r in rs
    ensures rs == {r}
  {
    var rest := rs - {r};
    assert |rest| == 0;
    assert rest == {};
  }
}
