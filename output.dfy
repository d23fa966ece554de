/**
 * What main does after the resume is collected: the path of the generated
 * .tex file, formed from the file name given at the prompt, and the choice
 * of whether to run pdflatex on it.
 */
module Output {
  import opened Wrappers

  const Directory: string := "output/"
  const Extension: string := ".tex"

  /** The path the .tex file is written to: fmt.Sprintf("output/%s.tex", name). */
  function OutputPath(name: string): (path: string)
    ensures |path| == |Directory| + |name| + |Extension|
  {
    Directory + name + Extension
  }

  /** The inverse of OutputPath: the file name a path under output/ ending
      in .tex was formed from, or None for any other path. */
  function TexBaseName(path: string): (name: Option<string>)
    ensures name.Some? ==> OutputPath(name.value) == path
  {
    if |path| >= |Directory| + |Extension|
       && path[..|Directory|] == Directory
       && path[|path| - |Extension|..] == Extension
    then
      var name := path[|Directory|..|path| - |Extension|];
      assert path == path[..|Directory|] + name + path[|path| - |Extension|..];
      Some(name)
    else None
  }

  /** Every path OutputPath forms gives back the name it was formed from. */
  lemma TexBaseNameOfOutputPath(name: string)
    ensures TexBaseName(OutputPath(name)) == Some(name)
  {
    var path := OutputPath(name);
    assert path[..|Directory|] == Directory;
    assert path[|path| - |Extension|..] == Extension;
    assert path[|Directory|..|path| - |Extension|] == name;
  }

  /** Different file names never share an output path. */
  lemma OutputPathInjective(a: string, b: string)
    requires OutputPath(a) == OutputPath(b)
    ensures a == b
  {
    TexBaseNameOfOutputPath(a);
    TexBaseNameOfOutputPath(b);
  }

  /** The answer test: the rune is 121 or 89. */
  predicate WantsCompile(c: char) {
    c as int == 121 || c as int == 89
  }

  /** Runes 121 and 89 are 'y' and 'Y', and no other rune is accepted. */
  lemma WantsCompileMeaning(c: char)
    ensures WantsCompile(c) <==> c == 'y' || c == 'Y'
  {
    assert 'y' as int == 121 && 'Y' as int == 89;
  }

  /** What happens at the compile prompt. */
  datatype CompileStep =
    | RuneReadFailed               // ReadRune returned an error: main returns
    | Declined                     // any answer other than y or Y
    | CompilerMissing              // pdflatex is not on the PATH: skipped
    | RunCompiler(program: string, args: seq<string>)

  /** The compile prompt: `rune` is what ReadRune returned (None for an
      error) and `compilerFound` whether exec.LookPath found pdflatex. */
  function Compile(rune: Option<char>, compilerFound: bool, outFileName: string): (step: CompileStep)
    ensures step.RuneReadFailed? <==> rune.None?
    ensures step.Declined? <==> rune.Some? && !WantsCompile(rune.value)
    ensures step.CompilerMissing? <==> rune.Some? && WantsCompile(rune.value) && !compilerFound
    ensures step.RunCompiler? <==> rune.Some? && WantsCompile(rune.value) && compilerFound
    ensures step.RunCompiler? ==>
      step.program == "pdflatex" && |step.args| == 2 && step.args[0] == "-output-directory=output"
  {
    match rune
    case None => RuneReadFailed
    case Some(c) =>
      if !WantsCompile(c) then Declined
      else if !compilerFound then CompilerMissing
      else RunCompiler("pdflatex", ["-output-directory=output", OutputPath(outFileName)])
  }

  /** pdflatex is run only on an answer of y or Y, and always on the file
      that was generated: the .tex file under output/ named after the name
      given at the prompt. */
  lemma CompilesGeneratedFile(rune: Option<char>, compilerFound: bool, outFileName: string)
    ensures var step := Compile(rune, compilerFound, outFileName);
      step.RunCompiler? ==>
        && (rune.value == 'y' || rune.value == 'Y')
        && TexBaseName(step.args[1]) == Some(outFileName)
  {
    var step := Compile(rune, compilerFound, outFileName);
    if step.RunCompiler? {
      WantsCompileMeaning(rune.value);
      TexBaseNameOfOutputPath(outFileName);
    }
  }
}
