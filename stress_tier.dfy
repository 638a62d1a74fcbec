/** The interpretation of a predicted stress score: four ordered tiers, each with a colour,
    a headline and advice. */
module StressTier {

  datatype Tier = Low | Moderate | High | VeryHigh

  /** The position of a tier in the order Low < Moderate < High < Very High. */
  function Rank(t: Tier): nat
  {
    match t
    case Low => 0
    case Moderate => 1
    case High => 2
    case VeryHigh => 3
  }

  /** The page's if/elif chain over the predicted score, conditions as written. */
  function Classify(score: real): Tier
  {
    if score < 3.0 then Low
    else if 3.0 <= score < 6.0 then Moderate
    else if 6.0 <= score < 8.0 then High
    else VeryHigh
  }

  /** The scores at which the tier steps up. */
  const Cuts: seq<real> := [3.0, 6.0, 8.0]

  /** How many of `cuts` the score has reached. */
  function CutsReached(cuts: seq<real>, score: real): (n: nat)
    ensures n <= |cuts|
  {
    if cuts == [] then 0
    else (if cuts[0] <= score then 1 else 0) + CutsReached(cuts[1..], score)
  }

  /** A higher score never reaches fewer cut points. */
  lemma {:induction false} CutsReachedMonotone(cuts: seq<real>, s1: real, s2: real)
    requires s1 <= s2
    ensures CutsReached(cuts, s1) <= CutsReached(cuts, s2)
  {
    if cuts != [] {
      CutsReachedMonotone(cuts[1..], s1, s2);
    }
  }

  /** The chain is the independent reading "the tier is the number of cut points the score
      has reached", for every real score, negative and above 10 included. */
  lemma ClassifyCountsCuts(score: real)
    ensures Rank(Classify(score)) == CutsReached(Cuts, score)
  {
    var c3: seq<real> := [8.0];
    var c2: seq<real> := [6.0, 8.0];
    assert c3[1..] == [];
    assert CutsReached(c3, score) == if 8.0 <= score then 1 else 0;
    assert c2[1..] == c3;
    assert CutsReached(c2, score) == (if 6.0 <= score then 1 else 0) + CutsReached(c3, score);
    assert Cuts[1..] == c2;
  }

  /** Each band is closed on the left and open on the right, both directions. */
  lemma ClassifyBands(score: real)
    ensures Classify(score) == Low <==> score < 3.0
    ensures Classify(score) == Moderate <==> 3.0 <= score < 6.0
    ensures Classify(score) == High <==> 6.0 <= score < 8.0
    ensures Classify(score) == VeryHigh <==> 8.0 <= score
  {
  }

  /** The tier never goes down as the score goes up. */
  lemma ClassifyMonotone(s1: real, s2: real)
    requires s1 <= s2
    ensures Rank(Classify(s1)) <= Rank(Classify(s2))
  {
    ClassifyCountsCuts(s1);
    ClassifyCountsCuts(s2);
    CutsReachedMonotone(Cuts, s1, s2);
  }

  /** A score exactly on a boundary belongs to the higher tier. */
  lemma ClassifyBoundaries()
    ensures Classify(3.0) == Moderate
    ensures Classify(6.0) == High
    ensures Classify(8.0) == VeryHigh
  {
  }

  /** The colour the headline is drawn in. */
  function Color(t: Tier): string
  {
    match t
    case Low => "green"
    case Moderate => "orange"
    case High => "red"
    case VeryHigh => "dark red"
  }

  /** The sentence shown under the score. */
  function Headline(t: Tier): string
  {
    match t
    case Low => "Low stress level. You seem to be managing well."
    case Moderate => "Moderate stress level. This is common among students. Consider stress management techniques if you feel overwhelmed."
    case High => "High stress level. It might be beneficial to seek support or implement stress reduction strategies."
    case VeryHigh => "Very high stress level. It's recommended to talk to a counselor or mental health professional for support."
  }

  /** The tips shown under the headline, in order. The block's heading line and the
      bullet before each tip are layout and are not kept. */
  function Tips(t: Tier): seq<string>
  {
    match t
    case Low => [
      "Continue your current stress management techniques",
      "Practice regular self-care activities like exercise and hobbies",
      "Use positive self-talk to reinforce good habits",
      "Maintain relaxation techniques like deep breathing or meditation"]
    case Moderate => [
      "Increase physical activity to release tension",
      "Try new relaxation techniques like yoga or tai chi",
      "Implement time management strategies to reduce daily pressures",
      "Connect more with supportive friends and family",
      "Consider cutting back on caffeine and sugar intake"]
    case High => [
      "Prioritize sleep and establish a consistent sleep routine",
      "Seek professional help or counseling for additional support",
      "Use stress-stopping techniques like counting to 10 or taking breaks",
      "Analyze and potentially reduce commitments that cause stress",
      "Practice mindfulness or guided imagery to calm your mind",
      "Consider lifestyle changes that might be contributing to stress"]
    case VeryHigh => [
      "Seek immediate professional help or counseling",
      "Prioritize self-care and stress reduction activities",
      "Communicate with trusted friends, family, or mentors about your stress",
      "Consider temporary adjustments to your workload or commitments",
      "Practice relaxation techniques regularly (e.g., deep breathing, meditation)",
      "Ensure you're getting adequate sleep and nutrition"]
  }

  /** What the page shows for a score. */
  datatype Interpretation = Interpretation(tier: Tier, color: string, headline: string, tips: seq<string>)

  /** The tier of a score with its colour, headline and advice: the tier is the number of
      cut points the score has reached, and everything shown with it is that tier's. */
  function Interpret(score: real): (r: Interpretation)
    ensures Rank(r.tier) == CutsReached(Cuts, score)
    ensures r.color == Color(r.tier) && r.headline == Headline(r.tier) && r.tips == Tips(r.tier)
  {
    ClassifyCountsCuts(score);
    var t := Classify(score);
    Interpretation(t, Color(t), Headline(t), Tips(t))
  }

  /** Each colour marks exactly one band of scores. */
  lemma ColorBands(score: real)
    ensures Color(Classify(score)) == "green" <==> score < 3.0
    ensures Color(Classify(score)) == "orange" <==> 3.0 <= score < 6.0
    ensures Color(Classify(score)) == "red" <==> 6.0 <= score < 8.0
    ensures Color(Classify(score)) == "dark red" <==> 8.0 <= score
  {
  }

  /** The colour alone tells the tier. */
  lemma ColorIdentifiesTier(t1: Tier, t2: Tier)
    requires Color(t1) == Color(t2)
    ensures t1 == t2
  {
  }
}
