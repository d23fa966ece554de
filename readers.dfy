/**
 * The collector's readers. Standard input is the sequence of lines the
 * user types, each without its line terminator, and the state of the
 * shared buffered reader is the position of the next line to read. Every
 * read consumes one line and yields it trimmed; a read at or past the end
 * of input yields "", as a buffered read that hits end of file returns
 * what it has (nothing) and the collector ignores the error. A reader
 * takes the position it starts at and returns what it read with the
 * position after its last read.
 */
module Readers {
  import opened Text
  import opened Wrappers
  import opened ResumeTypes

  /** The lines of the input, each trimmed. */
  function Trimmed(input: seq<string>): (lines: seq<string>)
    ensures |lines| == |input|
  {
    if input == [] then [] else [TrimSpace(input[0])] + Trimmed(input[1..])
  }

  lemma {:induction false} TrimmedAt(input: seq<string>, k: nat)
    requires k < |input|
    ensures Trimmed(input)[k] == TrimSpace(input[k])
    decreases k
  {
    if k > 0 {
      TrimmedAt(input[1..], k - 1);
    }
  }

  /** What the read at position k yields: the k-th line trimmed, or "" at
      and past the end of input. */
  function LineAt(input: seq<string>, k: nat): string {
    if k < |input| then Trimmed(input)[k] else ""
  }

  /** readInput: one read. */
  method ReadInput(input: seq<string>, pos: nat) returns (line: string, next: nat)
    ensures line == LineAt(input, pos) && next == pos + 1
    ensures IsTrimmed(line)
  {
    if pos < |input| {
      line := TrimSpace(input[pos]);
      TrimmedAt(input, pos);
      TrimSpaceIsTrimmed(input[pos]);
    } else {
      line := "";
    }
    next := pos + 1;
  }

  // ---------------------------------------------------------------------
  // readMultiple

  /** How many non-blank reads there are from pos on before the first
      blank one. */
  function ListLength(input: seq<string>, pos: nat): nat
    decreases |input| - pos
  {
    if pos >= |input| || LineAt(input, pos) == "" then 0
    else ListLength(input, pos + 1) + 1
  }

  /** ListLength counts the non-blank reads up to the first blank one. The
      counted reads lie within the input, so the blank read after them is at
      most the first read past the end of input. */
  lemma {:induction false} ListLengthMeaning(input: seq<string>, pos: nat)
    ensures forall j :: pos <= j < pos + ListLength(input, pos) ==> LineAt(input, j) != ""
    ensures LineAt(input, pos + ListLength(input, pos)) == ""
    ensures pos + ListLength(input, pos) <= |input| || ListLength(input, pos) == 0
    decreases |input| - pos
  {
    if pos < |input| && LineAt(input, pos) != "" {
      ListLengthMeaning(input, pos + 1);
      var rest := ListLength(input, pos + 1);
      assert LineAt(input, pos + ListLength(input, pos)) == LineAt(input, pos + 1 + rest);
    }
  }

  /** The list ends at the first blank read and not before: any run of
      non-blank reads ended by a blank one is ListLength long. */
  lemma ListLengthUnique(input: seq<string>, pos: nat, n: nat)
    requires forall j :: pos <= j < pos + n ==> LineAt(input, j) != ""
    requires LineAt(input, pos + n) == ""
    ensures n == ListLength(input, pos)
  {
    ListLengthMeaning(input, pos);
  }

  /** readMultiple: the trimmed lines before the first blank one, in input
      order; the blank line is consumed too. The end of input ends the
      list, since the read there yields "". */
  method ReadMultiple(input: seq<string>, pos: nat) returns (items: seq<string>, next: nat)
    ensures |items| == ListLength(input, pos)
    ensures items == LinesFrom(input, pos, |items|)
    ensures forall i :: 0 <= i < |items| ==> items[i] != ""
    ensures next == pos + |items| + 1
  {
    items, next := [], pos;
    while true
      invariant next == pos + |items|
      invariant items == LinesFrom(input, pos, |items|)
      invariant forall j :: pos <= j < next ==> LineAt(input, j) != ""
      invariant pos + |items| <= |input| || items == []
      decreases |input| + 1 - next
    {
      var line;
      line, next := ReadInput(input, next);
      if line == "" {
        ListLengthUnique(input, pos, |items|);
        return;
      }
      LinesFromSnoc(input, pos, |items|);
      items := items + [line];
    }
  }

  // ---------------------------------------------------------------------
  // The fixed-count section readers. A count is what fmt.Scanf stored; the
  // loop `for i := 0; i < count; i++` runs max(count, 0) times.

  function EntryCount(count: int): (n: nat)
    ensures count <= 0 ==> n == 0
    ensures count > 0 ==> n == count
  {
    if count > 0 then count else 0
  }

  /** The entry readEducation builds from the five reads at p. */
  function EducationAt(input: seq<string>, p: nat): Education {
    Education(LineAt(input, p), LineAt(input, p + 1), LineAt(input, p + 2),
              LineAt(input, p + 3), LineAt(input, p + 4))
  }

  /** The first n entries readEducation builds from pos on. */
  function EducationsFrom(input: seq<string>, pos: nat, n: nat): (entries: seq<Education>)
    ensures |entries| == n
  {
    seq(n, k requires 0 <= k < n => EducationAt(input, pos + 5 * k))
  }

  /** One more entry, read where the entries built so far end, extends them
      by one. */
  lemma EducationsFromSnoc(input: seq<string>, pos: nat, n: nat,
                           entries: seq<Education>, here: nat, entry: Education)
    requires entries == EducationsFrom(input, pos, n)
    requires here == pos + 5 * n && entry == EducationAt(input, here)
    ensures entries + [entry] == EducationsFrom(input, pos, n + 1)
  {
    var longer := EducationsFrom(input, pos, n + 1);
    forall k | 0 <= k < n + 1
      ensures longer[k] == (entries + [entry])[k]
    {
      if k < n {
        assert (entries + [entry])[k] == entries[k];
      }
    }
  }

  /** readEducation: entry i is Institution, Degree, Major, Year, Location
      from the reads at pos + 5i .. pos + 5i + 4. */
  method ReadEducation(input: seq<string>, pos: nat, count: int)
    returns (entries: seq<Education>, next: nat)
    ensures |entries| == EntryCount(count)
    ensures entries == EducationsFrom(input, pos, |entries|)
    ensures next == pos + 5 * |entries|
  {
    entries, next := [], pos;
    var i := 0;
    while i < count
      invariant i == |entries| <= EntryCount(count)
      invariant next == pos + 5 * i
      invariant entries == EducationsFrom(input, pos, i)
    {
      ghost var here := next;
      var institution, degree, major, year, location;
      institution, next := ReadInput(input, next);
      degree, next := ReadInput(input, next);
      major, next := ReadInput(input, next);
      year, next := ReadInput(input, next);
      location, next := ReadInput(input, next);
      var entry := Education(institution, degree, major, year, location);
      EducationsFromSnoc(input, pos, i, entries, here, entry);
      entries := entries + [entry];
      i := i + 1;
    }
  }

  /** The bullet count fmt.Scanf stored for experience entry i; a scan that
      stores nothing leaves the freshly declared count at 0. */
  function BulletCount(bulletCounts: seq<int>, i: nat): int {
    if i < |bulletCounts| then bulletCounts[i] else 0
  }

  /** How many reads experience entry i takes: its bullets and four fields. */
  function ExperienceSpan(bulletCounts: seq<int>, i: nat): nat {
    EntryCount(BulletCount(bulletCounts, i)) + 4
  }

  /** The offset at which experience entry i starts: after every earlier
      entry's reads. */
  function ExperienceStart(bulletCounts: seq<int>, i: nat): (start: nat)
    ensures i > 0 ==> start >= 4 * i
  {
    if i == 0 then 0
    else ExperienceStart(bulletCounts, i - 1) + ExperienceSpan(bulletCounts, i - 1)
  }

  /** The n reads from p on. */
  function LinesFrom(input: seq<string>, p: nat, n: nat): (lines: seq<string>)
    ensures |lines| == n
    ensures forall j :: 0 <= j < n ==> lines[j] == LineAt(input, p + j)
  {
    seq(n, j requires 0 <= j < n => LineAt(input, p + j))
  }

  /** One more read extends the lines read so far by one. */
  lemma LinesFromSnoc(input: seq<string>, p: nat, n: nat)
    ensures LinesFrom(input, p, n + 1) == LinesFrom(input, p, n) + [LineAt(input, p + n)]
  {
  }

  /** The entry readExperience builds at p with `bulletCount` bullets: the
      bullets are read first, then Title, Company, Start and End. */
  function ExperienceAt(input: seq<string>, p: nat, bulletCount: int): Experience {
    var n := EntryCount(bulletCount);
    Experience(LineAt(input, p + n), LineAt(input, p + n + 1),
               LineAt(input, p + n + 2), LineAt(input, p + n + 3),
               LinesFrom(input, p, n))
  }

  /** readExperience's inner loop: `bulletCount` bullet reads from p on
      (none when the count is not positive). */
  method ReadBullets(input: seq<string>, p: nat, bulletCount: int)
    returns (bullets: seq<string>, next: nat)
    ensures bullets == LinesFrom(input, p, EntryCount(bulletCount))
    ensures next == p + EntryCount(bulletCount)
  {
    bullets := [];
    next := p;
    var j := 0;
    while j < bulletCount
      invariant j == |bullets| <= EntryCount(bulletCount)
      invariant next == p + j
      invariant bullets == LinesFrom(input, p, j)
    {
      var bullet;
      bullet, next := ReadInput(input, next);
      LinesFromSnoc(input, p, j);
      bullets := bullets + [bullet];
      j := j + 1;
    }
  }

  /** One iteration of readExperience's outer loop: `bulletCount` bullet
      reads, then Title, Company, Start and End. */
  method ReadExperienceEntry(input: seq<string>, p: nat, bulletCount: int)
    returns (entry: Experience, next: nat)
    ensures entry == ExperienceAt(input, p, bulletCount)
    ensures next == p + EntryCount(bulletCount) + 4
  {
    var bullets;
    bullets, next := ReadBullets(input, p, bulletCount);
    var title, company, start, end;
    title, next := ReadInput(input, next);
    company, next := ReadInput(input, next);
    start, next := ReadInput(input, next);
    end, next := ReadInput(input, next);
    entry := Experience(title, company, start, end, bullets);
  }

  /** The first n entries readExperience builds from pos on. */
  function ExperiencesFrom(input: seq<string>, pos: nat, bulletCounts: seq<int>, n: nat): (entries: seq<Experience>)
    ensures |entries| == n
  {
    seq(n, k requires 0 <= k < n =>
      ExperienceAt(input, pos + ExperienceStart(bulletCounts, k), BulletCount(bulletCounts, k)))
  }

  /** One more entry, read where the entries built so far end, extends them
      by one. */
  lemma ExperiencesFromSnoc(input: seq<string>, pos: nat, bulletCounts: seq<int>, n: nat,
                            entries: seq<Experience>, here: nat, entry: Experience)
    requires entries == ExperiencesFrom(input, pos, bulletCounts, n)
    requires here == pos + ExperienceStart(bulletCounts, n)
    requires entry == ExperienceAt(input, here, BulletCount(bulletCounts, n))
    ensures entries + [entry] == ExperiencesFrom(input, pos, bulletCounts, n + 1)
  {
    var longer := ExperiencesFrom(input, pos, bulletCounts, n + 1);
    forall k | 0 <= k < n + 1
      ensures longer[k] == (entries + [entry])[k]
    {
      if k < n {
        assert (entries + [entry])[k] == entries[k];
      } else {
        assert longer[k] == ExperienceAt(input, here, BulletCount(bulletCounts, n));
      }
    }
  }

  /** readExperience: entry i reads, from pos + ExperienceStart(i) on, its
      own bullet count of bullet lines and then its four fields. */
  method ReadExperience(input: seq<string>, pos: nat, count: int, bulletCounts: seq<int>)
    returns (entries: seq<Experience>, next: nat)
    ensures |entries| == EntryCount(count)
    ensures entries == ExperiencesFrom(input, pos, bulletCounts, |entries|)
    ensures next == pos + ExperienceStart(bulletCounts, |entries|)
  {
    entries, next := [], pos;
    var i := 0;
    while i < count
      invariant i == |entries| <= EntryCount(count)
      invariant next == pos + ExperienceStart(bulletCounts, i)
      invariant entries == ExperiencesFrom(input, pos, bulletCounts, i)
    {
      var entry;
      ghost var here := next;
      entry, next := ReadExperienceEntry(input, next, BulletCount(bulletCounts, i));
      ExperiencesFromSnoc(input, pos, bulletCounts, i, entries, here, entry);
      entries := entries + [entry];
      i := i + 1;
    }
  }

  /** Entry i's block of reads (its bullets and four fields) ends before
      any later entry's block starts. */
  lemma {:induction false} ExperienceBlocksDisjoint(bulletCounts: seq<int>, i: nat, j: nat)
    requires i < j
    ensures ExperienceStart(bulletCounts, i) + ExperienceSpan(bulletCounts, i)
            <= ExperienceStart(bulletCounts, j)
    decreases j
  {
    if i + 1 < j {
      ExperienceBlocksDisjoint(bulletCounts, i, j - 1);
    }
  }

  /** No bullet leaks into another entry: bullet b of entry i is the read at
      offset ExperienceStart(i) + b, and every line entry j > i reads, bullet
      or field, comes from a later offset. */
  lemma ExperienceBulletsStayInEntry(input: seq<string>, pos: nat, bulletCounts: seq<int>, i: nat, b: nat, j: nat, c: nat)
    requires b < EntryCount(BulletCount(bulletCounts, i))
    requires i < j && c < ExperienceSpan(bulletCounts, j)
    ensures ExperienceAt(input, pos + ExperienceStart(bulletCounts, i), BulletCount(bulletCounts, i)).bullets[b]
            == LineAt(input, pos + ExperienceStart(bulletCounts, i) + b)
    ensures ExperienceStart(bulletCounts, i) + b < ExperienceStart(bulletCounts, j) + c
  {
    ExperienceBlocksDisjoint(bulletCounts, i, j);
  }

  /** The entry readProject builds from the three reads at p. */
  function ProjectAt(input: seq<string>, p: nat): Project {
    Project(LineAt(input, p), LineAt(input, p + 1), LineAt(input, p + 2))
  }

  /** The first n entries readProject builds from pos on. */
  function ProjectsFrom(input: seq<string>, pos: nat, n: nat): (entries: seq<Project>)
    ensures |entries| == n
  {
    seq(n, k requires 0 <= k < n => ProjectAt(input, pos + 3 * k))
  }

  /** One more entry, read where the entries built so far end, extends them
      by one. */
  lemma ProjectsFromSnoc(input: seq<string>, pos: nat, n: nat,
                         entries: seq<Project>, here: nat, entry: Project)
    requires entries == ProjectsFrom(input, pos, n)
    requires here == pos + 3 * n && entry == ProjectAt(input, here)
    ensures entries + [entry] == ProjectsFrom(input, pos, n + 1)
  {
    var longer := ProjectsFrom(input, pos, n + 1);
    forall k | 0 <= k < n + 1
      ensures longer[k] == (entries + [entry])[k]
    {
      if k < n {
        assert (entries + [entry])[k] == entries[k];
      }
    }
  }

  /** readProject: entry i is Name, Tech, Summary from the reads at
      pos + 3i .. pos + 3i + 2. */
  method ReadProject(input: seq<string>, pos: nat, count: int)
    returns (entries: seq<Project>, next: nat)
    ensures |entries| == EntryCount(count)
    ensures entries == ProjectsFrom(input, pos, |entries|)
    ensures next == pos + 3 * |entries|
  {
    entries, next := [], pos;
    var i := 0;
    while i < count
      invariant i == |entries| <= EntryCount(count)
      invariant next == pos + 3 * i
      invariant entries == ProjectsFrom(input, pos, i)
    {
      ghost var here := next;
      var name, tech, summary;
      name, next := ReadInput(input, next);
      tech, next := ReadInput(input, next);
      summary, next := ReadInput(input, next);
      var entry := Project(name, tech, summary);
      ProjectsFromSnoc(input, pos, i, entries, here, entry);
      entries := entries + [entry];
      i := i + 1;
    }
  }

  /** The entry readAchievement builds from the three reads at p. */
  function AchievementAt(input: seq<string>, p: nat): Achievement {
    Achievement(LineAt(input, p), LineAt(input, p + 1), LineAt(input, p + 2))
  }

  /** The first n entries readAchievement builds from pos on. */
  function AchievementsFrom(input: seq<string>, pos: nat, n: nat): (entries: seq<Achievement>)
    ensures |entries| == n
  {
    seq(n, k requires 0 <= k < n => AchievementAt(input, pos + 3 * k))
  }

  /** One more entry, read where the entries built so far end, extends them
      by one. */
  lemma AchievementsFromSnoc(input: seq<string>, pos: nat, n: nat,
                             entries: seq<Achievement>, here: nat, entry: Achievement)
    requires entries == AchievementsFrom(input, pos, n)
    requires here == pos + 3 * n && entry == AchievementAt(input, here)
    ensures entries + [entry] == AchievementsFrom(input, pos, n + 1)
  {
    var longer := AchievementsFrom(input, pos, n + 1);
    forall k | 0 <= k < n + 1
      ensures longer[k] == (entries + [entry])[k]
    {
      if k < n {
        assert (entries + [entry])[k] == entries[k];
      }
    }
  }

  /** readAchievement: entry i is Name, Event, Date from the reads at
      pos + 3i .. pos + 3i + 2. */
  method ReadAchievement(input: seq<string>, pos: nat, count: int)
    returns (entries: seq<Achievement>, next: nat)
    ensures |entries| == EntryCount(count)
    ensures entries == AchievementsFrom(input, pos, |entries|)
    ensures next == pos + 3 * |entries|
  {
    entries, next := [], pos;
    var i := 0;
    while i < count
      invariant i == |entries| <= EntryCount(count)
      invariant next == pos + 3 * i
      invariant entries == AchievementsFrom(input, pos, i)
    {
      ghost var here := next;
      var name, event, date;
      name, next := ReadInput(input, next);
      event, next := ReadInput(input, next);
      date, next := ReadInput(input, next);
      var entry := Achievement(name, event, date);
      AchievementsFromSnoc(input, pos, i, entries, here, entry);
      entries := entries + [entry];
      i := i + 1;
    }
  }

  // ---------------------------------------------------------------------
  // The retry loops of the email and phone fields.

  /** The position of the first line from pos on whose trimmed form is
      accepted; if there is none, the position of the first read past the
      end of input. */
  function FirstAccepted(input: seq<string>, pos: nat, accepts: string -> bool): nat
    decreases |input| - pos
  {
    if pos >= |input| then pos
    else if accepts(LineAt(input, pos)) then pos
    else FirstAccepted(input, pos + 1, accepts)
  }

  /** FirstAccepted is the first position from pos on holding an accepted
      line: every line before it is rejected, and if it is within the input
      its line is accepted; past the end it is the first position there. */
  lemma {:induction false} FirstAcceptedMeaning(input: seq<string>, pos: nat, accepts: string -> bool)
    ensures var k := FirstAccepted(input, pos, accepts);
      && pos <= k
      && (k < |input| ==> accepts(LineAt(input, k)))
      && (k >= |input| ==> k == if pos < |input| then |input| else pos)
      && (forall j :: pos <= j < k ==> j < |input| && !accepts(LineAt(input, j)))
    decreases |input| - pos
  {
    if pos < |input| && !accepts(LineAt(input, pos)) {
      FirstAcceptedMeaning(input, pos + 1, accepts);
    }
  }

  /** Read, trim and re-prompt until a line is accepted: the first accepted
      line from pos on is returned, and every line up to it is consumed.
      Past the end of input every read yields "": if "" is accepted it is
      returned, and otherwise the source re-prompts forever, which the
      model reports as None. */
  method ReadValidated(input: seq<string>, pos: nat, accepts: string -> bool)
    returns (value: Option<string>, next: nat)
    ensures var k := FirstAccepted(input, pos, accepts);
      && next == k + 1
      && (k < |input| ==> value == Some(LineAt(input, k)))
      && (k >= |input| ==> value == if accepts("") then Some("") else None)
  {
    FirstAcceptedMeaning(input, pos, accepts);
    next := pos;
    while true
      invariant pos <= next
      invariant next > |input| ==> next == pos
      invariant forall j :: pos <= j < next ==> j < |input| && !accepts(LineAt(input, j))
      decreases |input| + 1 - next
    {
      var atEnd := next >= |input|;
      var line;
      line, next := ReadInput(input, next);
      if accepts(line) {
        value := Some(line);
        return;
      }
      if atEnd {
        value := None;
        return;
      }
    }
  }
}
