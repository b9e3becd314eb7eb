/**
 * The letter-grade and GPA tables of the grading engine (0–10 score scale).
 * Both tables use the same breakpoints; the first threshold the score reaches wins.
 */
module GradeTable {
  import opened Wrappers

  /** The letters `calculateGrade` can return for a known score, lowest last. */
  datatype Letter = APlus | A | BPlus | B | CPlus | C | DPlus | D | F {
    /** The label the source returns ('A+', 'A', ...). */
    function Label(): (s: string)
      ensures s != "-" && s != []
    {
      match this
      case APlus => "A+"
      case A => "A"
      case BPlus => "B+"
      case B => "B"
      case CPlus => "C+"
      case C => "C"
      case DPlus => "D+"
      case D => "D"
      case F => "F"
    }

    /** Position in the order F < D < D+ < C < C+ < B < B+ < A < A+. */
    function Rank(): nat
    {
      match this
      case APlus => 8
      case A => 7
      case BPlus => 6
      case B => 5
      case CPlus => 4
      case C => 3
      case DPlus => 2
      case D => 1
      case F => 0
    }
  }

  /** One row of the breakpoint table: a threshold, its letter and its GPA step. */
  datatype Step = Step(threshold: real, letter: Letter, gpa: real)

  /** The breakpoints, highest first. Below the last one a score is an F worth 0. */
  const Steps: seq<Step> := [
    Step(9.0, APlus, 4.0), Step(8.5, A, 3.7), Step(8.0, BPlus, 3.5), Step(7.0, B, 3.0),
    Step(6.5, CPlus, 2.5), Step(5.5, C, 2.0), Step(5.0, DPlus, 1.5), Step(4.0, D, 1.0)
  ]

  /** Reference reading of the tables: the first row (from index k on) whose threshold the score reaches. */
  function FirstStep(score: real, k: nat): (r: Option<Step>)
    requires k <= |Steps|
    ensures r.Some? ==> r.value in Steps[k..] && score >= r.value.threshold
    decreases |Steps| - k
  {
    if k == |Steps| then None
    else if score >= Steps[k].threshold then Some(Steps[k])
    else FirstStep(score, k + 1)
  }

  function TableLetter(score: real): Letter
  {
    match FirstStep(score, 0)
    case Some(step) => step.letter
    case None => F
  }

  function TableGpa(score: real): real
  {
    match FirstStep(score, 0)
    case Some(step) => step.gpa
    case None => 0.0
  }

  /** The if-chain of `calculateGrade` for a known score. */
  function LetterOf(s: real): Letter
  {
    if s >= 9.0 then APlus
    else if s >= 8.5 then A
    else if s >= 8.0 then BPlus
    else if s >= 7.0 then B
    else if s >= 6.5 then CPlus
    else if s >= 5.5 then C
    else if s >= 5.0 then DPlus
    else if s >= 4.0 then D
    else F
  }

  /** `calculateGrade`: '-' exactly for a missing score, otherwise the label of the first threshold reached. */
  function LetterGrade(score: Option<real>): (g: string)
    ensures g == "-" <==> score.None?
    ensures score.Some? ==> g == LetterOf(score.value).Label()
  {
    match score
    case None => "-"
    case Some(s) => LetterOf(s).Label()
  }

  /** The values `scoreToGPA` can return. */
  predicate IsGpaStep(r: real)
  {
    r == 0.0 || r == 1.0 || r == 1.5 || r == 2.0 || r == 2.5 || r == 3.0 || r == 3.5 || r == 3.7 || r == 4.0
  }

  /** `scoreToGPA`: the GPA step of the first threshold reached, 0 below 4.0. */
  function ScoreToGpa(score: real): (r: real)
    ensures IsGpaStep(r)
    ensures r == 4.0 <==> score >= 9.0
    ensures 0.0 <= r <= 4.0
  {
    if score >= 9.0 then 4.0
    else if score >= 8.5 then 3.7
    else if score >= 8.0 then 3.5
    else if score >= 7.0 then 3.0
    else if score >= 6.5 then 2.5
    else if score >= 5.5 then 2.0
    else if score >= 5.0 then 1.5
    else if score >= 4.0 then 1.0
    else 0.0
  }

  /** The if-chain is the table read from the top: the first threshold reached gives the letter. */
  lemma LetterOfMatchesTable(s: real)
    ensures LetterOf(s) == TableLetter(s)
  {
    FirstStepReads(s);
  }

  /** Likewise for the GPA steps. */
  lemma ScoreToGpaMatchesTable(s: real)
    ensures ScoreToGpa(s) == TableGpa(s)
  {
    FirstStepReads(s);
  }

  /** The row the table reading picks, threshold by threshold. */
  lemma {:induction false} FirstStepReads(s: real)
    ensures FirstStep(s, 0) == (if s >= 9.0 then Some(Steps[0]) else if s >= 8.5 then Some(Steps[1])
      else if s >= 8.0 then Some(Steps[2]) else if s >= 7.0 then Some(Steps[3])
      else if s >= 6.5 then Some(Steps[4]) else if s >= 5.5 then Some(Steps[5])
      else if s >= 5.0 then Some(Steps[6]) else if s >= 4.0 then Some(Steps[7]) else None)
  {
    if s < 9.0 {
      FirstStepSkips(s, 0);
      if s < 8.5 {
        FirstStepSkips(s, 1);
        if s < 8.0 {
          FirstStepSkips(s, 2);
          if s < 7.0 {
            FirstStepSkips(s, 3);
            if s < 6.5 {
              FirstStepSkips(s, 4);
              if s < 5.5 {
                FirstStepSkips(s, 5);
                if s < 5.0 {
                  FirstStepSkips(s, 6);
                  if s < 4.0 {
                    FirstStepSkips(s, 7);
                  }
                }
              }
            }
          }
        }
      }
    }
  }

  /** A row the score does not reach passes the reading on to the next one. */
  lemma FirstStepSkips(s: real, k: nat)
    requires k < |Steps| && s < Steps[k].threshold
    ensures FirstStep(s, k) == FirstStep(s, k + 1)
  {
  }

  /** A higher score never yields a lower letter. */
  lemma LetterGradeMonotone(s: real, t: real)
    requires s <= t
    ensures LetterOf(s).Rank() <= LetterOf(t).Rank()
  {
  }

  /** A higher score never yields a lower GPA step. */
  lemma ScoreToGpaMonotone(s: real, t: real)
    requires s <= t
    ensures ScoreToGpa(s) <= ScoreToGpa(t)
  {
  }

  /** The two tables agree: a score's GPA step is the one listed beside its letter (0 beside F). */
  lemma GpaMatchesLetter(s: real)
    ensures LetterOf(s) == F ==> ScoreToGpa(s) == 0.0
    ensures LetterOf(s) != F ==> Step(ScoreThreshold(LetterOf(s)), LetterOf(s), ScoreToGpa(s)) in Steps
  {
  }

  /** The threshold listed for a letter (0 for F, which has no row). */
  function ScoreThreshold(l: Letter): real
  {
    match l
    case APlus => 9.0
    case A => 8.5
    case BPlus => 8.0
    case B => 7.0
    case CPlus => 6.5
    case C => 5.5
    case DPlus => 5.0
    case D => 4.0
    case F => 0.0
  }
}
