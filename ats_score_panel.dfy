/**
 * The score panel: the status band of a score (label and colour classes), the colour of the
 * score ring, and the widths of the three bars drawn from the one score.
 */
module ScorePanel {

  datatype Status = Status(name: string, color: string, bg: string)

  const Excellent: Status := Status("Excellent", "text-green-600", "bg-green-500")
  const Good: Status := Status("Good", "text-indigo-600", "bg-indigo-500")
  const Average: Status := Status("Average", "text-yellow-600", "bg-yellow-500")
  const NeedsWork: Status := Status("Needs Work", "text-red-600", "bg-red-500")

  /** The score the panel shows when none is passed. */
  const DefaultScore: int := 0

  /**
   * `getScoreStatus(score)`: each status name belongs to one band of scores, and the four
   * bands cover every score.
   */
  function GetScoreStatus(score: int): (status: Status)
    ensures status.name == "Excellent" <==> score >= 80
    ensures status.name == "Good" <==> 60 <= score < 80
    ensures status.name == "Average" <==> 40 <= score < 60
    ensures status.name == "Needs Work" <==> score < 40
  {
    assert "Excellent"[0] == 'E' && "Good"[0] == 'G' && "Average"[0] == 'A' && "Needs Work"[0] == 'N';
    if score >= 80 then Excellent
    else if score >= 60 then Good
    else if score >= 40 then Average
    else NeedsWork
  }

  /** The ring's stroke colour: the colour of the score's status band. */
  function StrokeColor(score: int): (color: string)
    ensures color == BandColor(GetScoreStatus(score))
  {
    assert "Excellent"[0] == 'E' && "Good"[0] == 'G' && "Average"[0] == 'A';
    if score >= 80 then "#22c55e"
    else if score >= 60 then "#6366f1"
    else if score >= 40 then "#eab308"
    else "#ef4444"
  }

  /** The ring colour that goes with each band. */
  function BandColor(s: Status): string {
    if s == Excellent then "#22c55e"
    else if s == Good then "#6366f1"
    else if s == Average then "#eab308"
    else "#ef4444"
  }

  /** "Keywords Match": `Math.min(score + 5, 100)`, the least of the two. */
  function KeywordsBar(score: int): (width: int)
    ensures width <= score + 5 && width <= 100
    ensures width == score + 5 || width == 100
  {
    if score + 5 < 100 then score + 5 else 100
  }

  /** "Formatting": `Math.min(score + 10, 100)`, the least of the two. */
  function FormattingBar(score: int): (width: int)
    ensures width <= score + 10 && width <= 100
    ensures width == score + 10 || width == 100
  {
    if score + 10 < 100 then score + 10 else 100
  }

  /** "Content Quality": `Math.max(score - 5, 0)`, the greatest of the two. */
  function ContentBar(score: int): (width: int)
    ensures width >= score - 5 && width >= 0
    ensures width == score - 5 || width == 0
  {
    if score - 5 > 0 then score - 5 else 0
  }

  // ---------------------------------------------------------------------------
  // Properties
  // ---------------------------------------------------------------------------

  /** With no score passed the panel shows "Needs Work" in red. */
  lemma DefaultStatus()
    ensures GetScoreStatus(DefaultScore).name == "Needs Work"
    ensures StrokeColor(DefaultScore) == "#ef4444"
  {
  }

  /** The ring colour changes between two neighbouring scores exactly when the status band does. */
  lemma RingMatchesBand(score: int)
    ensures StrokeColor(score) == StrokeColor(score + 1) <==> GetScoreStatus(score) == GetScoreStatus(score + 1)
  {
    assert "Excellent"[0] == 'E' && "Good"[0] == 'G' && "Average"[0] == 'A';
    assert "#22c55e"[1] == '2' && "#6366f1"[1] == '6' && "#eab308"[1] == 'e' && "#ef4444"[2] == 'f';
  }

  /** For a score in [0, 100], every bar is a percentage in [0, 100]. */
  lemma BarsArePercentages(score: int)
    requires 0 <= score <= 100
    ensures 0 <= KeywordsBar(score) <= 100
    ensures 0 <= FormattingBar(score) <= 100
    ensures 0 <= ContentBar(score) <= 100
  {
  }

  /**
   * The formatting bar is never shorter than the keywords bar. The keywords bar is never
   * shorter than the content bar exactly when the score lies in [-5, 105], so the order holds
   * for every score the engine produces.
   */
  lemma BarOrder(score: int)
    ensures FormattingBar(score) >= KeywordsBar(score)
    ensures KeywordsBar(score) >= ContentBar(score) <==> -5 <= score <= 105
  {
  }

  /** A higher score never shortens a bar. */
  lemma BarsMonotone(s: int, t: int)
    requires s <= t
    ensures KeywordsBar(s) <= KeywordsBar(t)
    ensures FormattingBar(s) <= FormattingBar(t)
    ensures ContentBar(s) <= ContentBar(t)
  {
  }
}
