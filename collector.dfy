/**
 * The collector: the body of main that fills in a Resume from standard
 * input, in the order the prompts come. The counts that fmt.Scanf reads
 * straight from the terminal (entries per section, bullets per experience
 * entry) are given as parameters.
 */
module Collector {
  import opened Text
  import opened Wrappers
  import opened ResumeTypes
  import opened Patterns
  import opened Readers

  /** What fmt.Scanf stores for the sections' counts: the number of
      education, experience, project and achievement entries, and the
      bullet count of each experience entry in turn. */
  datatype Counts = Counts(education: int, experience: int, bullets: seq<int>,
                           projects: int, achievements: int)

  /** Where each part of the resume is read: the position of the accepted
      email and phone lines, of Location, Github and Introduction, and the
      first position of each skill list and section; `end` is the position
      after the last read. */
  datatype Layout = Layout(email: nat, phone: nat, location: nat, github: nat, introduction: nat,
                           programming: nat, frameworks: nat, other: nat, soft: nat,
                           education: nat, experience: nat, projects: nat, achievements: nat,
                           end: nat)

  /** The position after a list read from p and the blank read ending it. */
  function ListEnd(input: seq<string>, p: nat): nat {
    p + ListLength(input, p) + 1
  }

  /** Where the sections after the education section start, and where the
      last one ends, when the education section starts at p. */
  function ExperiencePos(p: nat, counts: Counts): nat {
    p + 5 * EntryCount(counts.education)
  }

  function ProjectsPos(p: nat, counts: Counts): nat {
    ExperiencePos(p, counts) + ExperienceStart(counts.bullets, EntryCount(counts.experience))
  }

  function AchievementsPos(p: nat, counts: Counts): nat {
    ProjectsPos(p, counts) + 3 * EntryCount(counts.projects)
  }

  function SectionsEnd(p: nat, counts: Counts): nat {
    AchievementsPos(p, counts) + 3 * EntryCount(counts.achievements)
  }

  /** The positions main reads each part at: the name at 0, the email retry
      loop from 1, the phone retry loop after the accepted email, then
      Location, Github, Introduction, the four skill lists and the four
      sections, each after the one before. */
  function LayoutOf(input: seq<string>, counts: Counts): Layout {
    var email := FirstAccepted(input, 1, IsValidEmail);
    var phone := FirstAccepted(input, email + 1, IsValidPhone);
    var programming := phone + 4;
    var frameworks := ListEnd(input, programming);
    var other := ListEnd(input, frameworks);
    var soft := ListEnd(input, other);
    var education := ListEnd(input, soft);
    Layout(email, phone, phone + 1, phone + 2, phone + 3,
           programming, frameworks, other, soft,
           education, ExperiencePos(education, counts), ProjectsPos(education, counts),
           AchievementsPos(education, counts), SectionsEnd(education, counts))
  }

  /** The email retry loop: the first line from pos on, in input order,
      whose trimmed form matches ^[\w._%+-]+@[\w.-]+\.[a-zA-Z]{2,}$; every
      line before it is rejected. Without such a line the source re-prompts
      forever on the empty reads past the end of input, reported as None. */
  method ReadEmail(input: seq<string>, pos: nat) returns (email: Option<string>, next: nat)
    ensures var k := FirstAccepted(input, pos, IsValidEmail);
      && next == k + 1
      && (email.Some? <==> k < |input|)
      && (email.Some? ==> email.value == LineAt(input, k) && EmailPatternMatches(email.value))
      && (forall j :: pos <= j < k ==> !EmailPatternMatches(LineAt(input, j)))
  {
    email, next := ReadValidated(input, pos, IsValidEmail);
    EmptyIsNotEmail();
    FirstAcceptedMeaning(input, pos, IsValidEmail);
    var k := FirstAccepted(input, pos, IsValidEmail);
    if email.Some? {
      EmailMatcherAgreesWithPattern(email.value);
    }
    forall j | pos <= j < k ensures !EmailPatternMatches(LineAt(input, j)) {
      EmailMatcherAgreesWithPattern(LineAt(input, j));
    }
  }

  /** The phone retry loop: the first line from pos on whose trimmed form
      is exactly ten ASCII digits (^\d{10}$); every line before it is
      rejected, and without one the source re-prompts forever (None). */
  method ReadPhone(input: seq<string>, pos: nat) returns (phone: Option<string>, next: nat)
    ensures var k := FirstAccepted(input, pos, IsValidPhone);
      && next == k + 1
      && (phone.Some? <==> k < |input|)
      && (phone.Some? ==> phone.value == LineAt(input, k) && IsValidPhone(phone.value))
      && (forall j :: pos <= j < k ==> !IsValidPhone(LineAt(input, j)))
  {
    phone, next := ReadValidated(input, pos, IsValidPhone);
    PhoneExamples();
    FirstAcceptedMeaning(input, pos, IsValidPhone);
  }

  /** The four readMultiple calls of the Skills literal, in field order:
      each list starts right after the blank line that ended the previous one. */
  method ReadSkills(input: seq<string>, pos: nat) returns (skills: Skills, next: nat)
    ensures var frameworks := ListEnd(input, pos);
      var other := ListEnd(input, frameworks);
      var soft := ListEnd(input, other);
      && skills.programming == LinesFrom(input, pos, ListLength(input, pos))
      && skills.frameworks == LinesFrom(input, frameworks, ListLength(input, frameworks))
      && skills.other == LinesFrom(input, other, ListLength(input, other))
      && skills.soft == LinesFrom(input, soft, ListLength(input, soft))
      && next == ListEnd(input, soft)
  {
    var programming, frameworks, other, soft;
    programming, next := ReadMultiple(input, pos);
    assert next == ListEnd(input, pos);
    ghost var p1 := next;
    frameworks, next := ReadMultiple(input, next);
    assert next == ListEnd(input, p1);
    ghost var p2 := next;
    other, next := ReadMultiple(input, next);
    assert next == ListEnd(input, p2);
    ghost var p3 := next;
    soft, next := ReadMultiple(input, next);
    assert next == ListEnd(input, p3);
    skills := Skills(programming, frameworks, other, soft);
  }

  /** The four section readers, in the order main calls them: each section
      starts right after the previous one's last read. */
  method ReadSections(input: seq<string>, pos: nat, counts: Counts)
    returns (education: seq<Education>, experience: seq<Experience>,
             projects: seq<Project>, achievements: seq<Achievement>, next: nat)
    ensures education == EducationsFrom(input, pos, EntryCount(counts.education))
    ensures experience == ExperiencesFrom(input, ExperiencePos(pos, counts), counts.bullets,
                                          EntryCount(counts.experience))
    ensures projects == ProjectsFrom(input, ProjectsPos(pos, counts), EntryCount(counts.projects))
    ensures achievements == AchievementsFrom(input, AchievementsPos(pos, counts),
                                             EntryCount(counts.achievements))
    ensures next == SectionsEnd(pos, counts)
  {
    education, next := ReadEducation(input, pos, counts.education);
    assert next == ExperiencePos(pos, counts);
    experience, next := ReadExperience(input, next, counts.experience, counts.bullets);
    assert next == ProjectsPos(pos, counts);
    projects, next := ReadProject(input, next, counts.projects);
    assert next == AchievementsPos(pos, counts);
    achievements, next := ReadAchievement(input, next, counts.achievements);
  }

  /** main's collection of the resume. It is None exactly when the input
      runs out before an email or a phone number is accepted, where the
      source's retry loop never ends. Otherwise every field is the read at
      its place in LayoutOf, in prompt order, and the position after the
      last read is returned. */
  method CollectResume(input: seq<string>, counts: Counts) returns (resume: Option<Resume>, next: nat)
    ensures var l := LayoutOf(input, counts);
      resume.Some? <==> l.email < |input| && l.phone < |input|
    ensures resume.Some? ==> var r := resume.value; var l := LayoutOf(input, counts);
      && r.name == LineAt(input, 0)
      && r.email == LineAt(input, l.email) && EmailPatternMatches(r.email)
      && r.phone == LineAt(input, l.phone) && IsValidPhone(r.phone)
      && r.location == LineAt(input, l.location)
      && r.github == LineAt(input, l.github)
      && r.introduction == LineAt(input, l.introduction)
      && r.skills.programming == LinesFrom(input, l.programming, ListLength(input, l.programming))
      && r.skills.frameworks == LinesFrom(input, l.frameworks, ListLength(input, l.frameworks))
      && r.skills.other == LinesFrom(input, l.other, ListLength(input, l.other))
      && r.skills.soft == LinesFrom(input, l.soft, ListLength(input, l.soft))
      && r.education == EducationsFrom(input, l.education, EntryCount(counts.education))
      && r.experience == ExperiencesFrom(input, l.experience, counts.bullets, EntryCount(counts.experience))
      && r.projects == ProjectsFrom(input, l.projects, EntryCount(counts.projects))
      && r.achievements == AchievementsFrom(input, l.achievements, EntryCount(counts.achievements))
      && next == l.end
    ensures resume.Some? ==> var skills := resume.value.skills;
      NoBlankItem(skills.programming) && NoBlankItem(skills.frameworks)
      && NoBlankItem(skills.other) && NoBlankItem(skills.soft)
  {
    ghost var l := LayoutOf(input, counts);
    var name;
    name, next := ReadInput(input, 0);
    var email;
    email, next := ReadEmail(input, next);
    if email.None? {
      return None, next;
    }
    assert next == l.email + 1;
    var phone;
    phone, next := ReadPhone(input, next);
    if phone.None? {
      return None, next;
    }
    assert next == l.location;
    var location, github, introduction;
    location, next := ReadInput(input, next);
    assert next == l.github;
    github, next := ReadInput(input, next);
    assert next == l.introduction;
    introduction, next := ReadInput(input, next);
    assert next == l.programming;
    var skills;
    skills, next := ReadSkills(input, next);
    assert next == l.education;
    var education, experience, projects, achievements;
    education, experience, projects, achievements, next := ReadSections(input, next, counts);
    resume := Some(Resume(name, email.value, phone.value, location, github, introduction,
                          skills, education, experience, projects, achievements));
    SkillItemsNonBlank(input, counts);
  }

  /** The skill lists of a collected resume, as CollectResume states them,
      hold no blank item: each list holds only the non-blank reads before
      the blank line that ends it. */
  lemma {:induction false} SkillItemsNonBlank(input: seq<string>, counts: Counts)
    ensures var l := LayoutOf(input, counts);
      && NoBlankItem(LinesFrom(input, l.programming, ListLength(input, l.programming)))
      && NoBlankItem(LinesFrom(input, l.frameworks, ListLength(input, l.frameworks)))
      && NoBlankItem(LinesFrom(input, l.other, ListLength(input, l.other)))
      && NoBlankItem(LinesFrom(input, l.soft, ListLength(input, l.soft)))
  {
    var l := LayoutOf(input, counts);
    ListItemsNonBlank(input, l.programming);
    ListItemsNonBlank(input, l.frameworks);
    ListItemsNonBlank(input, l.other);
    ListItemsNonBlank(input, l.soft);
  }

  predicate NoBlankItem(items: seq<string>) {
    forall i :: 0 <= i < |items| ==> items[i] != ""
  }

  lemma {:induction false} ListItemsNonBlank(input: seq<string>, p: nat)
    ensures NoBlankItem(LinesFrom(input, p, ListLength(input, p)))
  {
    ListLengthMeaning(input, p);
  }
}
