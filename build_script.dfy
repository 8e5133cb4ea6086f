/**
 * The build script's main sequence, with its I/O as parameters: read
 * `vocabulary.toml`, parse it, check the executable names against
 * `Cargo.toml`, render the generated file and write it. Reading, parsing and
 * writing failures abort the build; the manifest check only warns.
 */
module BuildScript {
  import opened Wrappers
  import opened Vocabulary
  import opened Codegen
  import opened ManifestSync

  datatype BuildError = ConfigUnreadable | ConfigMalformed | OutputUnwritable

  /** What a successful run leaves behind: the warnings it printed and the file it wrote. */
  datatype BuildOutput = BuildOutput(warnings: seq<Warning>, generated: string)

  /**
   * `configText` is the content of `vocabulary.toml` (`None`: unreadable),
   * `parse` the TOML deserializer, `manifest` the content of `Cargo.toml`
   * (`None`: unreadable), `outputWritable` whether the generated file can be
   * written to the output directory.
   */
  function Build(configText: Option<string>, parse: string -> Option<VocabularyConfig>,
                 manifest: Option<string>, outputWritable: bool): (r: Result<BuildOutput, BuildError>)
    ensures configText.None? ==> r == Failure(ConfigUnreadable)
    ensures configText.Some? && parse(configText.value).None? ==> r == Failure(ConfigMalformed)
    ensures configText.Some? && parse(configText.value).Some? && !outputWritable ==> r == Failure(OutputUnwritable)
    ensures r.Success? <==> configText.Some? && parse(configText.value).Some? && outputWritable
    ensures r.Success? ==>
              var c := parse(configText.value).value;
              r.value.generated == Render(c) && r.value.warnings == CheckCargoTomlSync(c, manifest)
  {
    match configText
    case None => Failure(ConfigUnreadable)
    case Some(text) =>
      match parse(text)
      case None => Failure(ConfigMalformed)
      case Some(c) =>
        var warnings := CheckCargoTomlSync(c, manifest);
        var generated := Render(c);
        if outputWritable then Success(BuildOutput(warnings, generated)) else Failure(OutputUnwritable)
  }

  /**
   * The manifest never decides the outcome: whatever `Cargo.toml` holds, or
   * whether it can be read at all, the build succeeds or fails alike and
   * writes the same file.
   */
  lemma ManifestIsAdvisory(configText: Option<string>, parse: string -> Option<VocabularyConfig>,
                           m1: Option<string>, m2: Option<string>, outputWritable: bool)
    ensures Build(configText, parse, m1, outputWritable).Success?
            == Build(configText, parse, m2, outputWritable).Success?
    ensures Build(configText, parse, m1, outputWritable).Success? ==>
              Build(configText, parse, m1, outputWritable).value.generated
              == Build(configText, parse, m2, outputWritable).value.generated
    ensures Build(configText, parse, m1, outputWritable).Failure? ==>
              Build(configText, parse, m1, outputWritable).error
              == Build(configText, parse, m2, outputWritable).error
  {
  }
}
