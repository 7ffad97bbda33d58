/** Which lines of a Markdown report belong to which required section: the fence-aware scanner and the
    definition it refines. Lines are represented by the tokens found in them. */
module ReportSections {
  import opened Contracts

  datatype Section = StatusSection | Conclusions | GoalEvidence | Limits

  /** A numeric token: its value, absent when not finite, and whether it carries a percent sign. */
  datatype Token = Token(value: Option<real>, percent: bool)

  /** One line: fence and heading marks, the first required section a heading names, whether nothing but
      blanks or table rules stands on it, and its citations, markers and numeric tokens. A stop marker that is
      not a stop code is `None`. */
  datatype Line = Line(
    fence: bool,
    heading: bool,
    names: Option<Section>,
    blank: bool,
    rule: bool,
    citations: seq<EvidenceId>,
    goals: seq<GoalId>,
    tasks: seq<TaskId>,
    stops: seq<Option<StopCode>>,
    numbers: seq<Token>)

  // ---------------------------------------------------------------- the definition

  function Fences(lines: seq<Line>, n: nat): nat
    requires n <= |lines|
  {
    if n == 0 then 0 else Fences(lines, n - 1) + (if lines[n - 1].fence then 1 else 0)
  }

  /** An odd number of fence marks stands above the line. */
  predicate Fenced(lines: seq<Line>, n: nat)
    requires n <= |lines|
  {
    Fences(lines, n) % 2 == 1
  }

  predicate OpensSection(lines: seq<Line>, h: nat)
    requires h < |lines|
  {
    !lines[h].fence && !Fenced(lines, h) && lines[h].heading
  }

  /** Text outside fences. */
  predicate IsText(lines: seq<Line>, n: nat)
    requires n < |lines|
  {
    !lines[n].fence && !Fenced(lines, n) && !lines[n].heading
  }

  /** `h` is the last heading above line `n` that is not inside a fence. */
  ghost predicate GovernedBy(lines: seq<Line>, n: nat, h: nat)
    requires n <= |lines|
  {
    h < n && OpensSection(lines, h) && forall k :: h < k < n ==> !OpensSection(lines, k)
  }

  /** A line belongs to a section if it is text and the last heading above it names the section. */
  ghost predicate Belongs(lines: seq<Line>, n: nat, s: Section) {
    n < |lines| && IsText(lines, n) && exists h: nat :: GovernedBy(lines, n, h) && lines[h].names == Some(s)
  }

  // ---------------------------------------------------------------- the scanner

  /** The section in force above line `n`. */
  ghost predicate InForce(lines: seq<Line>, n: nat, current: Option<Section>)
    requires n <= |lines|
  {
    match current
    case Some(s) => exists h: nat :: GovernedBy(lines, n, h) && lines[h].names == Some(s)
    case None => forall h: nat :: GovernedBy(lines, n, h) ==> lines[h].names.None?
  }

  lemma OneGovernor(lines: seq<Line>, n: nat, g: nat, h: nat)
    requires n <= |lines| && GovernedBy(lines, n, g) && GovernedBy(lines, n, h)
    ensures g == h
  {
  }

  /** A heading takes over; any other line leaves the section in force. */
  lemma ForceAdvances(lines: seq<Line>, n: nat, current: Option<Section>)
    requires n < |lines| && InForce(lines, n, current)
    ensures InForce(lines, n + 1, if OpensSection(lines, n) then lines[n].names else current)
  {
    if OpensSection(lines, n) {
      assert GovernedBy(lines, n + 1, n);
      forall h: nat | GovernedBy(lines, n + 1, h) ensures lines[h].names == lines[n].names {
        OneGovernor(lines, n + 1, h, n);
      }
    } else {
      forall h: nat ensures GovernedBy(lines, n + 1, h) <==> GovernedBy(lines, n, h) {
      }
      if current.Some? {
        var h: nat :| GovernedBy(lines, n, h) && lines[h].names == current;
        assert GovernedBy(lines, n + 1, h);
      }
    }
  }

  lemma ForceDecides(lines: seq<Line>, n: nat, current: Option<Section>, s: Section)
    requires n < |lines| && InForce(lines, n, current)
    ensures Belongs(lines, n, s) <==> IsText(lines, n) && current == Some(s)
  {
    if Belongs(lines, n, s) {
      var g: nat :| GovernedBy(lines, n, g) && lines[g].names == Some(s);
      if current.Some? {
        var h: nat :| GovernedBy(lines, n, h) && lines[h].names == current;
        OneGovernor(lines, n, g, h);
      }
    }
  }

  /** The indices listed for a section among the first `n` lines. */
  ghost predicate Lists(lines: seq<Line>, n: nat, s: Section, found: seq<nat>) {
    && (forall k: nat :: k in found <==> k < n && Belongs(lines, k, s))
    && (forall i, j :: 0 <= i < j < |found| ==> found[i] < found[j])
  }

  lemma ListsAdvance(lines: seq<Line>, n: nat, current: Option<Section>, s: Section, found: seq<nat>)
    requires n < |lines| && InForce(lines, n, current) && Lists(lines, n, s, found)
    ensures Lists(lines, n + 1, s, if IsText(lines, n) && current == Some(s) then found + [n] else found)
  {
    ForceDecides(lines, n, current, s);
    forall i | 0 <= i < |found| ensures found[i] < n {
      assert found[i] in found;
    }
  }

  /** `_section_lines`: one pass with a fence toggle and a current section. Every section lists exactly its
      lines, in order. */
  method SectionLines(lines: seq<Line>) returns (sections: map<Section, seq<nat>>)
    ensures forall s :: s in sections && Lists(lines, |lines|, s, sections[s])
  {
    sections := map[StatusSection := [], Conclusions := [], GoalEvidence := [], Limits := []];
    var current: Option<Section> := None;
    var inFence := false;
    forall s ensures s in sections && sections[s] == [] {
      match s
      case StatusSection =>
      case Conclusions =>
      case GoalEvidence =>
      case Limits =>
    }
    for n := 0 to |lines|
      invariant inFence == Fenced(lines, n)
      invariant InForce(lines, n, current)
      invariant forall s :: s in sections && Lists(lines, n, s, sections[s])
    {
      var line := lines[n];
      ghost var before := sections;
      ghost var above := current;
      ForceAdvances(lines, n, current);
      forall s
        ensures Lists(lines, n + 1, s, if IsText(lines, n) && above == Some(s) then before[s] + [n] else before[s])
      {
        ListsAdvance(lines, n, above, s, before[s]);
      }
      if line.fence {
        inFence := !inFence;
        continue;
      }
      if inFence {
        continue;
      }
      if line.heading {
        current := line.names;
        continue;
      }
      if current.Some? {
        sections := sections[current.value := sections[current.value] + [n]];
      }
    }
  }
}
