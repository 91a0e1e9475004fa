/**
 * segment_customer (app.py, lines 72-87), the Suggested Action map (lines 92-100) and
 * the RFM_Score text (line 68).
 */
module Segments {
  import opened Wrappers

  datatype Segment =
    | Champions
    | LoyalCustomers
    | PotentialLoyalist
    | RecentCustomers
    | AtRisk
    | Lost
    | Others

  /** The text app.py writes into the Segment column. */
  function Name(s: Segment): string
  {
    match s
    case Champions => "Champions"
    case LoyalCustomers => "Loyal Customers"
    case PotentialLoyalist => "Potential Loyalist"
    case RecentCustomers => "Recent Customers"
    case AtRisk => "At Risk"
    case Lost => "Lost"
    case Others => "Others"
  }

  /**
   * The ordered rule list of segment_customer; the first rule that matches wins. The
   * ensures clauses say, rule by rule, which score triples end in which segment once the
   * earlier rules are taken into account: together they partition all triples.
   */
  function Classify(r: int, f: int, m: int): (s: Segment)
    ensures s == Champions <==> r >= 4 && f >= 4 && m >= 4
    ensures s == LoyalCustomers <==> r >= 3 && f >= 3 && m >= 3 && !(r >= 4 && f >= 4 && m >= 4)
    ensures s == PotentialLoyalist <==> r >= 4 && f <= 2
    ensures s == RecentCustomers <==> r == 3 && f <= 2
    ensures s == AtRisk <==> r <= 2 && f >= 4
    ensures s == Lost <==> r <= 2 && f <= 2
    ensures s == Others <==> f >= 3 && ((r <= 2 && f == 3) || (r >= 3 && m <= 2))
  {
    if r >= 4 && f >= 4 && m >= 4 then Champions
    else if r >= 3 && f >= 3 && m >= 3 then LoyalCustomers
    else if r >= 4 && f <= 2 then PotentialLoyalist
    else if r >= 3 && f <= 2 then RecentCustomers
    else if r <= 2 && f >= 4 then AtRisk
    else if r <= 2 && f <= 2 then Lost
    else Others
  }

  /** Every segment occurs for some score triple in 1..5, Others for (3, 3, 2) among them. */
  lemma EverySegmentReachable(s: Segment)
    ensures exists r, f, m :: 1 <= r <= 5 && 1 <= f <= 5 && 1 <= m <= 5 && Classify(r, f, m) == s
  {
    match s
    case Champions => assert Classify(5, 5, 5) == s;
    case LoyalCustomers => assert Classify(3, 3, 3) == s;
    case PotentialLoyalist => assert Classify(4, 1, 1) == s;
    case RecentCustomers => assert Classify(3, 1, 1) == s;
    case AtRisk => assert Classify(1, 5, 1) == s;
    case Lost => assert Classify(1, 1, 1) == s;
    case Others => assert Classify(3, 3, 2) == s;
  }

  /** Different segments have different names. */
  lemma NamesDistinct(a: Segment, b: Segment)
    requires Name(a) == Name(b)
    ensures a == b
  {
  }

  // ----- Suggested Action -----

  /** The action table of app.py, keyed by segment name. */
  const Actions: map<string, string> := map[
    "Champions" := "Offer VIP loyalty reward",
    "Loyal Customers" := "Upsell premium products",
    "Potential Loyalist" := "Send exclusive preview",
    "Recent Customers" := "Welcome email & offer",
    "At Risk" := "Send win-back campaign",
    "Lost" := "Big discount or let go",
    "Others" := "General promotions"]

  /** Series.map with the action table: a name missing from the table gives no action (NaN). */
  function SuggestedAction(segment: string): Option<string>
  {
    if segment in Actions then Some(Actions[segment]) else None
  }

  /**
   * Every segment has an action, and the table names no other segment. So every classified
   * customer gets a non-missing action.
   */
  lemma ActionsCoverSegments(s: Segment, key: string)
    ensures SuggestedAction(Name(s)).Some?
    ensures key in Actions ==> exists t: Segment :: Name(t) == key
  {
    if key in Actions {
      if key == "Champions" { assert Name(Champions) == key; }
      else if key == "Loyal Customers" { assert Name(LoyalCustomers) == key; }
      else if key == "Potential Loyalist" { assert Name(PotentialLoyalist) == key; }
      else if key == "Recent Customers" { assert Name(RecentCustomers) == key; }
      else if key == "At Risk" { assert Name(AtRisk) == key; }
      else if key == "Lost" { assert Name(Lost) == key; }
      else { assert Name(Others) == key; }
    }
  }

  // ----- RFM_Score -----

  function DigitChar(d: int): char
    requires 0 <= d <= 9
  {
    (48 + d) as char
  }

  /** str() of a non-negative integer: its decimal digits. */
  function NatString(x: nat): (s: string)
    ensures |s| >= 1
    decreases x
  {
    if x < 10 then [DigitChar(x)] else NatString(x / 10) + [DigitChar(x % 10)]
  }

  /** str() of an integer. */
  function IntString(x: int): string
  {
    if x < 0 then "-" + NatString(-x) else NatString(x)
  }

  /** RFM_Score: the R, F and M scores as text, concatenated in that order. */
  function RfmScore(r: int, f: int, m: int): string
  {
    IntString(r) + IntString(f) + IntString(m)
  }

  function DigitValue(c: char): int
  {
    c as int - 48
  }

  /** Reads an RFM_Score back: three digit characters. */
  function ParseRfmScore(s: string): Option<(int, int, int)>
  {
    if |s| == 3 && (forall k :: 0 <= k < 3 ==> '0' <= s[k] <= '9')
    then Some((DigitValue(s[0]), DigitValue(s[1]), DigitValue(s[2])))
    else None
  }

  /**
   * For scores in 1..5 the RFM_Score is three characters, one digit per score, and
   * reading it back gives the scores: no digit is lost or reordered.
   */
  lemma RfmScoreRoundTrip(r: int, f: int, m: int)
    requires 1 <= r <= 5 && 1 <= f <= 5 && 1 <= m <= 5
    ensures |RfmScore(r, f, m)| == 3
    ensures RfmScore(r, f, m) == [DigitChar(r), DigitChar(f), DigitChar(m)]
    ensures ParseRfmScore(RfmScore(r, f, m)) == Some((r, f, m))
  {
  }
}
