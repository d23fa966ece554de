/**
 * The record the collector builds: a Resume with its skills and the four
 * repeated sections. Every field is plain text or an ordered sequence.
 */
module ResumeTypes {

  datatype Skills = Skills(
    programming: seq<string>,
    frameworks: seq<string>,
    other: seq<string>,
    soft: seq<string>)

  datatype Education = Education(
    institution: string,
    degree: string,
    major: string,
    year: string,
    location: string)

  datatype Experience = Experience(
    title: string,
    company: string,
    start: string,
    end: string,
    bullets: seq<string>)

  datatype Project = Project(
    name: string,
    tech: string,
    summary: string)

  datatype Achievement = Achievement(
    name: string,
    event: string,
    date: string)

  datatype Resume = Resume(
    name: string,
    email: string,
    phone: string,
    location: string,
    github: string,
    introduction: string,
    skills: Skills,
    education: seq<Education>,
    experience: seq<Experience>,
    projects: seq<Project>,
    achievements: seq<Achievement>)
}
