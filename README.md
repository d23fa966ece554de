# resume-builder: the interactive collector, in Dafny

resume-builder is a Go command-line program, `main.go`, that asks questions
on the terminal and fills in a `Resume` from the answers. The resume holds
contact details, four skill lists and four sections of entries: education,
experience, projects and achievements. The program renders the resume
through a LaTeX template into `output/<name>.tex` and, if asked, runs
`pdflatex` on that file.

This project models the collector: how `main` and the helpers
`readInput`, `readMultiple`, `readEducation`, `readExperience`, `readProject`
and `readAchievement` consume standard input, line by line.

- Standard input is a sequence of lines `input: seq<string>`. A reader is a
  method from a position `pos` to its result and the position after its
  last read.
- Every read trims the line as Go's `strings.TrimSpace` does, with the white
  space set of `unicode.IsSpace`. A read at or past the end of input yields
  `""`, as `bufio.Reader.ReadString` does at end of file; the program ignores
  that error.
- The email pattern `^[\w._%+-]+@[\w.-]+\.[a-zA-Z]{2,}$` is written out by
  hand. `EmailPatternMatches` states its meaning as an existential: some
  split of the string fits the pattern. `IsValidEmail` is a deterministic
  matcher. The phone pattern `^\d{10}$` is `IsValidPhone`.
- The counts that `fmt.Scanf` reads straight from `os.Stdin` are parameters.
  The model assumes the bufio reader never takes in a count line, which holds
  when each read of standard input returns one line, as a terminal in line
  mode does.
- Each loop of the source is a `while` loop in a method. Each method is
  proved against a specification function of the input:
  - `LineAt`, `ListLength` and `LinesFrom` for single reads and lists
  - `EducationsFrom`, `ExperiencesFrom`, `ProjectsFrom` and
    `AchievementsFrom` for the sections
  - `FirstAccepted` for the retry loops
  - `LayoutOf` for where `main` reads each field
- The file name after collection and the compile prompt are pure
  functions: `OutputPath`, `TexBaseName` and `Compile`.

Files:
- `wrappers.dfy`: `Option`.
- `resume.dfy`: the records of `main.go:15-62`.
- `text.dfy`: `TrimSpace`.
- `patterns.dfy`: the two patterns.
- `readers.dfy`: the reader helpers.
- `collector.dfy`: the body of `main` up to the resume literal.
- `output.dfy`: the output path and the compile decision.

A negative count runs no iteration of `for i := 0; i < count; i++`;
`EntryCount(count)` is `max(count, 0)`.

## Model

| member | source | states |
|---|---|---|
| Text.TrimSpaceIsTrimmed | main.go:67 | a trimmed line neither starts nor ends with a white space character |
| Text.TrimSpaceUnique | main.go:67 | trimming removes exactly the surrounding white space: any trimmed string wrapped in white space trims back to itself |
| Text.TrimSpaceSplits | main.go:67 | every line is its trimmed form wrapped in white space |
| Text.TrimSpaceEmpty | main.go:67 | a line trims to "" exactly when it is all white space |
| Text.TrimSpaceIdempotent | main.go:67 | trimming twice is the same as trimming once |
| Readers.ReadInput | main.go:64-68 | one read consumes exactly one line; it returns the trimmed line, or "" past the end, and the result has no white space at either end |
| Readers.ListLengthMeaning | main.go:73-79 | the list length counts the non-blank reads before the first blank one; the counted reads lie within the input, and the blank read is at most the first read past its end |
| Readers.ListLengthUnique | main.go:73-79 | any run of non-blank reads ended by a blank one has exactly the list length, so the list stops at the first blank line and not before |
| Readers.ReadMultiple | main.go:70-81 | the items are the trimmed reads before the first blank one, in input order; no item is blank; exactly the items plus the blank line are consumed |
| Readers.ReadEducation | main.go:83-99 | max(count, 0) entries; entry i is Institution, Degree, Major, Year and Location from reads 5i to 5i+4; exactly 5 lines per entry are consumed |
| Readers.ReadBullets | main.go:112-114 | a bullet count's worth of reads, in order; none for a count that is not positive |
| Readers.ReadExperienceEntry | main.go:106-121 | an experience entry's bullets are the bullet-count reads from its start, followed by Title, Company, Start and End from the next four lines; bullet count + 4 lines are consumed |
| Readers.ExperienceStart | main.go:106-122 | each experience entry takes at least four reads, so entry i starts at least 4i lines in |
| Readers.ReadExperience | main.go:101-124 | max(count, 0) entries; entry i uses its own bullet count and starts right after every earlier entry's reads |
| Readers.ExperienceBlocksDisjoint | main.go:106-122 | entry i's block of reads ends before any later entry's block starts |
| Readers.ExperienceBulletsStayInEntry | main.go:112-121 | bullet b of entry i is the read at that entry's start + b, and no line a later entry reads, bullet or field, is at that position: no bullet leaks into another entry |
| Readers.ReadProject | main.go:126-140 | max(count, 0) entries; entry i is Name, Tech and Summary from reads 3i to 3i+2 |
| Readers.ReadAchievement | main.go:142-156 | max(count, 0) entries; entry i is Name, Event and Date from reads 3i to 3i+2 |
| Readers.FirstAcceptedMeaning | main.go:171-179 | the retry position is the first line from the start that is accepted; every earlier line is within the input and rejected |
| Readers.ReadValidated | main.go:171-191 | a retry loop returns the first accepted line and consumes every line up to and including it; past the end of input it returns None unless "" is accepted, since the source re-prompts forever |
| Patterns.EmailMatcherAgreesWithPattern | main.go:170 | the deterministic email check accepts exactly the strings that ^[\w._%+-]+@[\w.-]+\.[a-zA-Z]{2,}$ matches |
| Patterns.AcceptedEmailShape | main.go:170 | an accepted email has exactly one '@', does not start with it, and ends in a '.' followed by at least two ASCII letters |
| Patterns.AcceptedEmailIsTrimmed | main.go:174-175 | an accepted email has no white space at either end |
| Patterns.EmailExamples | main.go:170 | a@b.co is accepted |
| Patterns.RejectedEmailExamples | main.go:175-178 | abc, a@b and a@b.c are rejected, so the prompt is repeated |
| Patterns.EmptyIsNotEmail | main.go:173-175 | the empty read at the end of input is never an email |
| Patterns.AcceptedPhoneIsTrimmed | main.go:186-187 | an accepted phone number has no white space at either end |
| Patterns.PhoneExamples | main.go:182-190 | 1234567890 is accepted; 12345, 123456789a, 12345678901 and "" are rejected |
| Collector.ReadEmail | main.go:169-179 | the email is the first line from the start, in input order, that matches the email pattern; every line before it fails the pattern; None, the endless re-prompt, exactly when no line until the end of input matches |
| Collector.ReadPhone | main.go:181-191 | the phone is the first line from the start that is exactly ten ASCII digits; every line before it is rejected; None exactly when the input runs out first |
| Collector.ReadSkills | main.go:203-208 | the four skill lists are read one after another, each starting after the blank line that ended the previous one |
| Collector.ReadSections | main.go:209-212 | the four sections are read one after another with their own counts, each starting right after the previous one's last read |
| Collector.CollectResume | main.go:164-213 | the resume is complete exactly when both retry loops end within the input. Name is the first read. Email and phone are the first accepted lines after it. Location, Github and Introduction are the next three reads. The skill lists and the sections follow, each at its LayoutOf position; no skill item is blank |
| Collector.SkillItemsNonBlank | main.go:203-208 | none of the four skill lists main reads, at their LayoutOf positions, holds a blank item, since each list stops at the first blank read |
| Output.OutputPath | main.go:221 | the output path is output/ plus the file name plus .tex, and no longer than those three parts |
| Output.TexBaseName | main.go:221 | the file name recovered from a path forms that same path again |
| Output.TexBaseNameOfOutputPath | main.go:221 | the name is recovered from every output path: the round trip from name to path to name |
| Output.OutputPathInjective | main.go:221 | two different file names never give the same output path |
| Output.WantsCompileMeaning | main.go:246 | runes 121 and 89 are exactly 'y' and 'Y' |
| Output.Compile | main.go:239-262 | a failed rune read ends the program. Any rune but y/Y declines. y/Y with pdflatex missing skips compilation. y/Y with pdflatex found runs pdflatex with -output-directory=output on the generated path |
| Output.CompilesGeneratedFile | main.go:246-251 | pdflatex runs only after a y or Y answer, and always on the .tex path formed from the given file name |

## Left out

- Prompts, messages and `log.Fatal` exits (the `fmt.Print*` calls throughout `main.go`): they do not change what is collected.
- Template parsing and rendering with `text/template` and `template/resume.tex` (main.go:158-162, 229): a foreign library and a template file that is not part of this model.
- Filesystem work: `os.MkdirAll`, `os.Create` and closing the file (main.go:215-227). The model stops at the path the file is created at.
- `exec.LookPath` and running `pdflatex` (main.go:248-258): `Compile` takes the lookup result as a parameter and returns the command it would run.
- `fmt.Scanf` and `fmt.Scan` parsing (main.go:87, 105, 111, 130, 146, 219): the counts and the file name are parameters. A missing bullet count is 0, the value of the fresh variable when the scan stores nothing.
- The interplay of those scans on `os.Stdin` with the separate bufio buffer over the same stream (main.go:165, 87). With standard input from a pipe or a file, `bufio.NewReader` takes in up to 4096 bytes on the first `ReadString`, count lines included, so `Scanf` then sees other data, or the end of input and a count of 0. The model covers only the line-at-a-time case, where the buffer never holds a count.
- `ReadRune` itself (main.go:240): its result, or its failure, is a parameter of `Compile`.
- Readers.ReadValidated: when no line until the end of input is accepted, the source loops forever on empty reads. The model reports that endless loop as `None` instead of modelling non-termination.
- Readers.ReadInput: a read past the end of input moves the position on by one, where the source just reads "" again. The two cannot be told apart, because every later read there yields "" as well.
- Go strings are byte sequences, while the model's lines are sequences of Unicode scalar values, so a line holding invalid UTF-8 cannot be written down. For `TrimSpace` and both patterns such a byte acts like U+FFFD, which is never white space and never in a pattern's character class, so no observable behaviour is lost.
- The width of Go's `int`: counts are unbounded integers, and the model does not allocate memory.
