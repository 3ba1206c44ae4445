/**
 * The members inspector: reading grade tokens such as "21B", choosing a
 * member's highest grade, sorting members by it and laying out the roster.
 */
module MembersInspector {
  import opened Wrappers
  import opened Strings
  import Sorting

  /** `Degree`: Bachelor = 1, Master = 2, Doctor = 3. */
  datatype Degree = Bachelor | Master | Doctor

  /** The enum's numeric value, which `maxGrade` compares. */
  function Rank(d: Degree): (n: nat)
    ensures d == Bachelor <==> n == 1
    ensures d == Master <==> n == 2
    ensures d == Doctor <==> n == 3
  {
    match d
    case Bachelor => 1
    case Master => 2
    case Doctor => 3
  }

  /** `DEGREE_LABELS`. */
  function DegreeLabel(d: Degree): (s: string)
    ensures |s| == 1 && IsDegreeLetter(s[0]) && DegreeOfLetter(s[0]) == Some(d)
  {
    match d
    case Bachelor => "B"
    case Master => "M"
    case Doctor => "D"
  }

  predicate IsDegreeLetter(c: char) {
    c == 'B' || c == 'M' || c == 'D'
  }

  /** The `switch (degree)` of `parseGrade`. */
  function DegreeOfLetter(c: char): (r: Option<Degree>)
    ensures r.Some? <==> IsDegreeLetter(c)
  {
    if c == 'B' then Some(Bachelor)
    else if c == 'M' then Some(Master)
    else if c == 'D' then Some(Doctor)
    else None
  }

  datatype Grade = Grade(year: nat, degree: Degree)

  /** A member after parsing; `grades` is the source's `grade` array. */
  datatype Member = Member(id: string, name: string, grades: seq<Grade>, isActive: bool)

  /** One entry of the members API response, grades still as tokens. */
  datatype ApiMember = ApiMember(id: string, name: string, grade: seq<string>, isActive: bool)

  // ---------------------------------------------------------------------
  // parseGrade: the unanchored regular expression /(\d+)([BMD])/
  // ---------------------------------------------------------------------

  const INVALID_GRADE_FORMAT := "Invalid grade format"

  /** The end of the run of decimal digits that starts at `p`. */
  function RunEnd(s: string, p: nat): (q: nat)
    requires p <= |s|
    ensures p <= q <= |s|
    ensures forall k :: p <= k < q ==> IsDigit(s[k])
    ensures q < |s| ==> !IsDigit(s[q])
    decreases |s| - p
  {
    if p < |s| && IsDigit(s[p]) then RunEnd(s, p + 1) else p
  }

  /**
   * The expression matches at `p`. `\d+` is greedy and may give digits back,
   * but a shorter run is followed by a digit, never by B, M or D, so only the
   * whole run can be followed by the degree letter.
   */
  predicate MatchesAt(s: string, p: nat)
    requires p <= |s|
  {
    var q := RunEnd(s, p);
    p < q < |s| && IsDegreeLetter(s[q])
  }

  /** The leftmost match at or after `p`, as `String.prototype.match` finds it. */
  function FirstMatch(s: string, p: nat): (r: Option<nat>)
    requires p <= |s|
    ensures r.Some? ==> p <= r.value < |s| && MatchesAt(s, r.value)
    ensures r.Some? ==> forall k :: p <= k < r.value ==> !MatchesAt(s, k)
    ensures r.None? ==> forall k :: p <= k <= |s| ==> !MatchesAt(s, k)
    decreases |s| - p
  {
    if p == |s| then None
    else if MatchesAt(s, p) then Some(p)
    else FirstMatch(s, p + 1)
  }

  /** `parseGrade`: the year is `parseInt` of the digit group, the degree its letter. */
  function ParseGrade(token: string): (r: Result<Grade, string>)
    ensures r.Success? <==> exists p :: 0 <= p <= |token| && MatchesAt(token, p)
    ensures r.Failure? ==> r.error == INVALID_GRADE_FORMAT
  {
    match FirstMatch(token, 0)
    case None => Failure(INVALID_GRADE_FORMAT)
    case Some(p) =>
      var q := RunEnd(token, p);
      match DegreeOfLetter(token[q])
      case Some(d) => Success(Grade(DecimalValue(token[p..q]), d))
      case None => Failure(INVALID_GRADE_FORMAT)
  }

  /** The grade read is the one of the leftmost match. */
  lemma ParseGradeReadsLeftmostMatch(token: string, p: nat)
    requires p <= |token| && MatchesAt(token, p)
    requires forall k :: 0 <= k < p ==> !MatchesAt(token, k)
    ensures ParseGrade(token).Success?
    ensures ParseGrade(token).value.year == DecimalValue(token[p..RunEnd(token, p)])
    ensures Some(ParseGrade(token).value.degree) == DegreeOfLetter(token[RunEnd(token, p)])
  {
    var r := FirstMatch(token, 0);
    assert r.Some?;
    assert r.value == p;
  }

  /** A run of digits that stops at `n` ends at `n`. */
  lemma {:induction false} RunEndAt(s: string, p: nat, n: nat)
    requires p <= n <= |s|
    requires forall k :: p <= k < n ==> IsDigit(s[k])
    requires n < |s| ==> !IsDigit(s[n])
    ensures RunEnd(s, p) == n
    decreases n - p
  {
    if p < n {
      RunEndAt(s, p + 1, n);
    }
  }

  /** How `renderMember` writes a grade: the year, then the degree label. */
  function GradeText(g: Grade): string {
    NatToString(g.year) + DegreeLabel(g.degree)
  }

  /** Every grade the roster writes reads back as the same grade. */
  lemma GradeTextRoundTrip(g: Grade)
    ensures ParseGrade(GradeText(g)) == Success(g)
  {
    var digits := NatToString(g.year);
    var s := GradeText(g);
    assert s[..|digits|] == digits;
    assert s[|digits|] == DegreeLabel(g.degree)[0];
    RunEndAt(s, 0, |digits|);
    assert MatchesAt(s, 0);
    assert FirstMatch(s, 0) == Some(0);
    DecimalRoundTrip(g.year);
    assert s[0..|digits|] == digits;
  }

  lemma ParseGradeExamples()
    ensures ParseGrade("21B") == Success(Grade(21, Bachelor))
    ensures ParseGrade("21M") == Success(Grade(21, Master))
    ensures ParseGrade("21D") == Success(Grade(21, Doctor))
  {
    assert NatToString(21) == "21";
    assert GradeText(Grade(21, Bachelor)) == "21B";
    assert GradeText(Grade(21, Master)) == "21M";
    assert GradeText(Grade(21, Doctor)) == "21D";
    GradeTextRoundTrip(Grade(21, Bachelor));
    GradeTextRoundTrip(Grade(21, Master));
    GradeTextRoundTrip(Grade(21, Doctor));
  }

  /** A token whose only letter stands after the digits fails unless it is B, M or D. */
  lemma ParseGradeRejections()
    ensures ParseGrade("21A").Failure?
    ensures ParseGrade("21C").Failure?
    ensures ParseGrade("21E").Failure?
  {
    forall s: string, p: nat | s in {"21A", "21C", "21E"} && p <= |s|
      ensures !MatchesAt(s, p)
    {
      RunEndAt(s, p, if p <= 2 then 2 else 3);
    }
  }

  // ---------------------------------------------------------------------
  // maxGrade
  // ---------------------------------------------------------------------

  /** `a` ranks strictly above `b`: a higher degree, or the same degree and a smaller year. */
  predicate Outranks(a: Grade, b: Grade) {
    Rank(a.degree) > Rank(b.degree) || (a.degree == b.degree && a.year < b.year)
  }

  /** The callback of `maxGrade`'s reduce: keeps the accumulator unless `g` outranks it. */
  function KeepHigher(best: Grade, g: Grade): (r: Grade)
  {
    if Rank(best.degree) < Rank(g.degree) then g
    else if Rank(best.degree) > Rank(g.degree) then best
    else if best.year < g.year then best
    else if best.year > g.year then g
    else best
  }

  /** `reduce` from the left, starting with the accumulator `best`. */
  function ReduceGrades(best: Grade, rest: seq<Grade>): (r: Grade)
    ensures r == best || r in rest
    ensures !Outranks(best, r)
    ensures forall g :: g in rest ==> !Outranks(g, r)
    decreases |rest|
  {
    if rest == [] then best else ReduceGrades(KeepHigher(best, rest[0]), rest[1..])
  }

  /** `maxGrade`: `reduce` without a seed, so the list must not be empty. */
  function MaxGrade(grades: seq<Grade>): (r: Grade)
    requires |grades| > 0
    ensures r in grades
    ensures forall g :: g in grades ==> !Outranks(g, r)
  {
    ReduceGrades(grades[0], grades[1..])
  }

  /** Only one grade of a list is outranked by none of it, so the two
      postconditions of `MaxGrade` pin its result down. */
  lemma MaxGradeIsUnique(grades: seq<Grade>, top: Grade)
    requires top in grades
    requires forall g :: g in grades ==> !Outranks(g, top)
    ensures MaxGrade(grades) == top
  {
    var m := MaxGrade(grades);
    assert !Outranks(m, top) && !Outranks(top, m);
  }

  lemma MaxGradeExamples()
    ensures MaxGrade([Grade(21, Bachelor), Grade(18, Master), Grade(23, Doctor)]) == Grade(23, Doctor)
    ensures MaxGrade([Grade(21, Bachelor), Grade(18, Bachelor), Grade(23, Bachelor)]) == Grade(18, Bachelor)
  {
    MaxGradeIsUnique([Grade(21, Bachelor), Grade(18, Master), Grade(23, Doctor)], Grade(23, Doctor));
    MaxGradeIsUnique([Grade(21, Bachelor), Grade(18, Bachelor), Grade(23, Bachelor)], Grade(18, Bachelor));
  }

  // ---------------------------------------------------------------------
  // sortMembers
  // ---------------------------------------------------------------------

  /** A member that holds at least one grade: `maxGrade` is defined on it. */
  type GradedMember = m: Member | m.grades != [] witness Member("", "", [Grade(0, Bachelor)], false)

  /**
   * The comparator of the grade sort. `maxGrade(aMax, bMax) === aMax` keeps
   * `aMax` on a tie, so the comparator answers -1 unless `b`'s top grade
   * strictly outranks `a`'s, and it never answers 0.
   */
  function CompareByGrade(a: GradedMember, b: GradedMember): (r: int)
    ensures r == -1 || r == 1
    ensures r == 1 <==> Outranks(MaxGrade(b.grades), MaxGrade(a.grades))
  {
    var aMax := MaxGrade(a.grades);
    var bMax := MaxGrade(b.grades);
    if MaxGrade([aMax, bMax]) == aMax then -1 else 1
  }

  /** The grade comparator is consistent, so sorting by it sorts. */
  lemma CompareByGradeIsTotalPreorder()
    ensures Sorting.IsTotalPreorder(CompareByGrade)
  {
    forall x: GradedMember, y: GradedMember, z: GradedMember
      | CompareByGrade(x, y) <= 0 && CompareByGrade(y, z) <= 0
      ensures CompareByGrade(x, z) <= 0
    {
    }
  }

  /** No member is followed by one whose top grade outranks theirs. */
  ghost predicate GradeOrdered(s: seq<Member>) {
    forall i, j :: 0 <= i < j < |s| ==>
      s[i].grades != [] && s[j].grades != [] &&
      !Outranks(MaxGrade(s[j].grades), MaxGrade(s[i].grades))
  }

  /**
   * `sortMembers`: sorts in place, first by the supplied `localeCompare` on
   * names (descending), then by top grade. The result is a rearrangement of
   * the input in which a member whose top grade outranks another's comes first.
   */
  method SortMembers(a: array<GradedMember>, localeCompare: (string, string) -> int)
    modifies a
    ensures multiset(a[..]) == old(multiset(a[..]))
    ensures GradeOrdered(a[..])
  {
    Sorting.InsertionSort(a, (x: GradedMember, y: GradedMember) => localeCompare(y.name, x.name));
    Sorting.InsertionSort(a, CompareByGrade);
    CompareByGradeIsTotalPreorder();
    assert Sorting.SortedBy(a[..], CompareByGrade);
  }

  /** In a grade-ordered list, a member whose top grade outranks another's stands before it. */
  lemma OutrankingMemberComesFirst(s: seq<Member>, i: nat, j: nat)
    requires GradeOrdered(s) && i < |s| && j < |s|
    requires s[i].grades != [] && s[j].grades != []
    requires Outranks(MaxGrade(s[i].grades), MaxGrade(s[j].grades))
    ensures i < j
  {
  }

  // ---------------------------------------------------------------------
  // renderMembers and renderMember
  // ---------------------------------------------------------------------

  /** The active members, in input order. */
  function Actives(ms: seq<Member>): seq<Member>
  {
    if ms == [] then [] else (if ms[0].isActive then [ms[0]] else []) + Actives(ms[1..])
  }

  /** The inactive members, in input order. */
  function Inactives(ms: seq<Member>): seq<Member>
  {
    if ms == [] then [] else (if ms[0].isActive then [] else [ms[0]]) + Inactives(ms[1..])
  }

  /** The `reduce` of `renderMembers`: appends each member to the inactive or the active list. */
  function Partition(ms: seq<Member>): (seq<Member>, seq<Member>)
  {
    if ms == [] then ([], [])
    else
      var (inactive, active) := Partition(ms[..|ms| - 1]);
      var m := ms[|ms| - 1];
      if m.isActive then (inactive, active + [m]) else (inactive + [m], active)
  }

  lemma {:induction false} FiltersSnoc(ms: seq<Member>, m: Member)
    ensures Actives(ms + [m]) == Actives(ms) + (if m.isActive then [m] else [])
    ensures Inactives(ms + [m]) == Inactives(ms) + (if m.isActive then [] else [m])
  {
    var t := ms + [m];
    if ms == [] {
      assert t == [m];
      assert t[1..] == [];
    } else {
      assert t[0] == ms[0];
      assert t[1..] == ms[1..] + [m];
      FiltersSnoc(ms[1..], m);
    }
  }

  /** The reduce splits the members into the inactive and the active ones, each in input order. */
  lemma {:induction false} PartitionSplitsByActivity(ms: seq<Member>)
    ensures Partition(ms) == (Inactives(ms), Actives(ms))
  {
    if ms != [] {
      var init, last := ms[..|ms| - 1], ms[|ms| - 1];
      assert ms == init + [last];
      PartitionSplitsByActivity(init);
      FiltersSnoc(init, last);
      var (inactive, active) := Partition(init);
      assert inactive == Inactives(init) && active == Actives(init);
      if last.isActive {
        assert Inactives(init) + [] == Inactives(init);
        assert Partition(ms) == (inactive, active + [last]);
      } else {
        assert Actives(init) + [] == Actives(init);
        assert Partition(ms) == (inactive + [last], active);
      }
    }
  }

  /** The active list holds only active members and the inactive list only inactive ones. */
  lemma {:induction false} FiltersSelectByActivity(ms: seq<Member>)
    ensures forall k :: 0 <= k < |Actives(ms)| ==> Actives(ms)[k].isActive
    ensures forall k :: 0 <= k < |Inactives(ms)| ==> !Inactives(ms)[k].isActive
  {
    if ms != [] {
      FiltersSelectByActivity(ms[1..]);
    }
  }

  /** Together the two lists hold every member exactly as often as the input does. */
  lemma {:induction false} PartitionCovers(ms: seq<Member>)
    ensures multiset(Actives(ms)) + multiset(Inactives(ms)) == multiset(ms)
  {
    if ms != [] {
      PartitionCovers(ms[1..]);
      assert ms == [ms[0]] + ms[1..];
    }
  }

  /** The grade tokens of one member, in order. */
  function GradeTexts(gs: seq<Grade>): (r: seq<string>)
    ensures |r| == |gs|
    ensures forall k :: 0 <= k < |gs| ==> r[k] == GradeText(gs[k])
    ensures forall k :: 0 <= k < |gs| ==> ParseGrade(r[k]) == Success(gs[k])
  {
    if gs == [] then []
    else
      GradeTextRoundTrip(gs[0]);
      [GradeText(gs[0])] + GradeTexts(gs[1..])
  }

  /** `renderMember`: "- name (g1, g2, ...)". */
  function RenderMember(m: Member): string {
    "- " + m.name + " (" + Join(GradeTexts(m.grades), ", ") + ")"
  }

  function RenderLines(ms: seq<Member>): (r: seq<string>)
    ensures |r| == |ms|
    ensures forall k :: 0 <= k < |ms| ==> r[k] == RenderMember(ms[k])
  {
    if ms == [] then [] else [RenderMember(ms[0])] + RenderLines(ms[1..])
  }

  const HEADER_BLOCK := "\n## Maximum Members Inspector\nMaximumのメンバーの登録状況一覧です。\n    "
  const NO_MEMBERS_BLOCK := "\n**メンバーがまだ登録されていません。**\n      "
  /** TypeError of `reduce` on an empty array without a seed, as V8 words it. */
  const EMPTY_REDUCE_ERROR := "Reduce of empty array with no initial value"

  /** The blocks `renderMembers` pushes, each standing for the text `BlockText` gives it. */
  datatype Block = Header | ActiveSection(sorted: seq<Member>) | InactiveSection(sorted: seq<Member>) | NoMembers

  function BlockText(b: Block): string {
    match b
    case Header => HEADER_BLOCK
    case ActiveSection(sorted) =>
      "\n### アクティブなメンバー :approved: (" + NatToString(|sorted|) + "人)\n"
        + Join(RenderLines(sorted), "\n") + "\n    "
    case InactiveSection(sorted) =>
      "\n### 非アクティブなメンバー :closed: (" + NatToString(|sorted|) + "人)\n"
        + Join(RenderLines(sorted), "\n") + "\n    "
    case NoMembers => NO_MEMBERS_BLOCK
  }

  function BlockTexts(bs: seq<Block>): (r: seq<string>)
    ensures |r| == |bs|
    ensures forall k :: 0 <= k < |bs| ==> r[k] == BlockText(bs[k])
  {
    if bs == [] then [] else [BlockText(bs[0])] + BlockTexts(bs[1..])
  }

  /** The `blocks` array of `renderMembers`, given the two sorted sections. */
  function Blocks(active: seq<Member>, inactive: seq<Member>): seq<Block> {
    var blocks := [Header]
      + (if |active| > 0 then [ActiveSection(active)] else [])
      + (if |inactive| > 0 then [InactiveSection(inactive)] else []);
    if |blocks| == 1 then blocks + [NoMembers] else blocks
  }

  /**
   * The roster starts with the header; the active section, when there is one,
   * comes right after it and the inactive one, when there is one, last; the
   * "no members yet" line appears exactly when both sections are empty.
   */
  lemma BlocksLayout(active: seq<Member>, inactive: seq<Member>)
    ensures var b := Blocks(active, inactive);
      && b[0] == Header
      && (active != [] ==> b[1] == ActiveSection(active))
      && (inactive != [] ==> b[|b| - 1] == InactiveSection(inactive))
      && (NoMembers in b <==> active == [] && inactive == [])
      && |b| == if active == [] && inactive == [] then 2
                else 1 + (if active != [] then 1 else 0) + (if inactive != [] then 1 else 0)
  {
  }

  /** `sortMembers` throws: it compares, and one of the compared members has no grade. */
  predicate SortThrows(ms: seq<Member>) {
    |ms| >= 2 && exists k :: 0 <= k < |ms| && ms[k].grades == []
  }

  /**
   * One section's `sortMembers` call on a fresh array. A list of fewer than
   * two members is never compared; otherwise a member without a grade makes
   * `maxGrade` throw.
   */
  method SortSection(ms: seq<Member>, localeCompare: (string, string) -> int)
    returns (r: Result<seq<Member>, string>)
    ensures r.Failure? <==> SortThrows(ms)
    ensures r.Failure? ==> r.error == EMPTY_REDUCE_ERROR
    ensures r.Success? ==> multiset(r.value) == multiset(ms) && GradeOrdered(r.value)
    ensures r.Success? ==> |r.value| == |ms|
  {
    if |ms| <= 1 {
      return Success(ms);
    }
    if exists k :: 0 <= k < |ms| && ms[k].grades == [] {
      return Failure(EMPTY_REDUCE_ERROR);
    }
    var graded := AsGraded(ms);
    var a := new GradedMember[|graded|](i requires 0 <= i < |graded| => graded[i]);
    assert a[..] == ms;
    SortMembers(a, localeCompare);
    assert |a[..]| == a.Length == |ms|;
    r := Success(a[..]);
  }

  /** The same members, seen as members that hold a grade. */
  function AsGraded(ms: seq<Member>): (r: seq<GradedMember>)
    requires forall k :: 0 <= k < |ms| ==> ms[k].grades != []
    ensures r == ms
  {
    if ms == [] then []
    else
      var m: GradedMember := ms[0];
      [m] + AsGraded(ms[1..])
  }

  /** `s` is `ms` sorted by top grade. */
  ghost predicate IsGradeSorting(s: seq<Member>, ms: seq<Member>) {
    multiset(s) == multiset(ms) && GradeOrdered(s)
  }

  /**
   * `renderMembers`: splits the members by activity, sorts each non-empty
   * section and joins the blocks with newlines. It fails exactly when a
   * section's sort throws.
   */
  method RenderMembers(members: seq<Member>, localeCompare: (string, string) -> int)
    returns (r: Result<string, string>)
    ensures r.Failure? <==> (|Actives(members)| > 0 && SortThrows(Actives(members)))
                            || (|Inactives(members)| > 0 && SortThrows(Inactives(members)))
    ensures r.Success? ==> exists active, inactive ::
      && IsGradeSorting(active, Actives(members))
      && IsGradeSorting(inactive, Inactives(members))
      && r.value == Join(BlockTexts(Blocks(active, inactive)), "\n")
  {
    var (inactiveMembers, activeMembers) := Partition(members);
    PartitionSplitsByActivity(members);
    var blocks := [Header];
    var active: seq<Member> := [];
    var inactive: seq<Member> := [];
    if |activeMembers| > 0 {
      var sorted := SortSection(activeMembers, localeCompare);
      if sorted.Failure? {
        return Failure(sorted.error);
      }
      active := sorted.value;
      assert |active| == |activeMembers|;
      blocks := blocks + [ActiveSection(active)];
    }
    if |inactiveMembers| > 0 {
      var sorted := SortSection(inactiveMembers, localeCompare);
      if sorted.Failure? {
        return Failure(sorted.error);
      }
      inactive := sorted.value;
      assert |inactive| == |inactiveMembers|;
      blocks := blocks + [InactiveSection(inactive)];
    }
    if |blocks| == 1 {
      blocks := blocks + [NoMembers];
    }
    assert blocks == Blocks(active, inactive);
    assert IsGradeSorting(active, Actives(members));
    assert IsGradeSorting(inactive, Inactives(members));
    r := Success(Join(BlockTexts(blocks), "\n"));
  }

  // ---------------------------------------------------------------------
  // parseMembersApiResponse
  // ---------------------------------------------------------------------

  /** `grade.map(parseGrade)`: the first token that does not parse makes the whole map throw. */
  function ParseGrades(tokens: seq<string>): (r: Result<seq<Grade>, string>)
    ensures r.Success? <==> forall k :: 0 <= k < |tokens| ==> ParseGrade(tokens[k]).Success?
    ensures r.Success? ==> |r.value| == |tokens|
    ensures r.Success? ==> forall k :: 0 <= k < |tokens| ==> ParseGrade(tokens[k]) == Success(r.value[k])
    ensures r.Failure? ==> r.error == INVALID_GRADE_FORMAT
  {
    if tokens == [] then Success([])
    else
      match ParseGrade(tokens[0])
      case Failure(e) => Failure(e)
      case Success(g) =>
        match ParseGrades(tokens[1..])
        case Failure(e) => Failure(e)
        case Success(gs) => Success([g] + gs)
  }

  /** The tokens the roster writes for a grade list parse back to that list. */
  lemma ParseRenderedGrades(gs: seq<Grade>)
    ensures ParseGrades(GradeTexts(gs)) == Success(gs)
  {
    var r := ParseGrades(GradeTexts(gs));
    assert r.Success?;
    assert r.value == gs;
  }

  /** `parseMembersApiResponse`: keeps id, name and activity and parses every grade. */
  function ParseMembersApiResponse(members: seq<ApiMember>): (r: Result<seq<Member>, string>)
    ensures r.Success? <==> forall i :: 0 <= i < |members| ==> ParseGrades(members[i].grade).Success?
    ensures r.Success? ==> |r.value| == |members|
    ensures r.Success? ==> forall i :: 0 <= i < |members| ==>
      && r.value[i].id == members[i].id
      && r.value[i].name == members[i].name
      && r.value[i].isActive == members[i].isActive
      && ParseGrades(members[i].grade) == Success(r.value[i].grades)
  {
    if members == [] then Success([])
    else
      var m := members[0];
      match ParseGrades(m.grade)
      case Failure(e) => Failure(e)
      case Success(gs) =>
        match ParseMembersApiResponse(members[1..])
        case Failure(e) => Failure(e)
        case Success(rest) => Success([Member(m.id, m.name, gs, m.isActive)] + rest)
  }
}
