/**
 * The advisory check that the executable names of the vocabulary appear as
 * `name = "<value>"` somewhere in the text of `Cargo.toml`. A missing or
 * unreadable manifest skips the check; a missing name yields a warning; the
 * check never fails the build. Warnings are returned instead of printed.
 */
module ManifestSync {
  import opened Wrappers
  import opened Text
  import opened Vocabulary

  /** The text searched for: a TOML key `name` bound to exactly this string. */
  function Pattern(name: string): (p: string)
    ensures |p| == |name| + 9
    ensures p[..7] == "name = " && p[7] == '"' && p[|p| - 1] == '"'
    ensures p[8..|p| - 1] == name
  {
    "name = \"" + name + "\""
  }

  datatype Warning = GuiNameMismatch(guiName: string) | McpServerNameMismatch(mcpServerName: string)

  /** A configured name as a warning quotes it. */
  function Quoted(name: string): string {
    "('" + name + "')"
  }

  const MismatchAdvice: string := " does not match Cargo.toml. Please update [[bin]] name in Cargo.toml."

  /** Cargo shows a line the build script prints with this prefix as a build warning. */
  const WarningDirective: string := "cargo:warning="

  /** The warning sign and the two spaces after it. */
  const Alert: string := "⚠️  "

  /** The configured name a warning is about. */
  function Name(w: Warning): string {
    match w
    case GuiNameMismatch(n) => n
    case McpServerNameMismatch(n) => n
  }

  /** What the warning says is out of step, up to the quoted name. */
  // Each subject is split after its first word so that the verifier can read
  // its first character, which `SubjectAt` and `MessageInjective` rely on.
  function Subject(w: Warning): string {
    match w
    case GuiNameMismatch(_) => "GUI" + " executable name in vocabulary.toml "
    case McpServerNameMismatch(_) => "MCP" + " server executable name in vocabulary.toml "
  }

  function Lead(w: Warning): string {
    WarningDirective + Alert + Subject(w)
  }

  /** The line the build script prints for a warning: a Cargo warning that ends with the advice. */
  function Message(w: Warning): (line: string)
    ensures WarningDirective <= line
    ensures |line| >= |MismatchAdvice| && line[|line| - |MismatchAdvice|..] == MismatchAdvice
  {
    Framed(WarningDirective, Alert, Subject(w));
    Framed(Lead(w), Quoted(Name(w)), MismatchAdvice);
    Lead(w) + Quoted(Name(w)) + MismatchAdvice
  }

  /** Each warning quotes the configured name it is about. */
  lemma MessageNamesValue(w: Warning)
    ensures w.GuiNameMismatch? ==> Contains(Message(w), Quoted(w.guiName))
    ensures w.McpServerNameMismatch? ==> Contains(Message(w), Quoted(w.mcpServerName))
  {
    ContainsInfix(Lead(w), Quoted(Name(w)), MismatchAdvice);
  }

  /** Distinct warnings print distinct lines: the line tells which check failed and for which name. */
  lemma MessageInjective(w1: Warning, w2: Warning)
    ensures Message(w1) == Message(w2) ==> w1 == w2
  {
    if Message(w1) == Message(w2) {
      var k := |WarningDirective| + |Alert|;
      SubjectAt(w1);
      SubjectAt(w2);
      CharOfLead(Lead(w1), Quoted(Name(w1)), MismatchAdvice, k);
      CharOfLead(Lead(w2), Quoted(Name(w2)), MismatchAdvice, k);
      assert Subject(w1)[0] == Subject(w2)[0];
      assert w1.GuiNameMismatch? == w2.GuiNameMismatch?;
      FramedInjective(Lead(w1), Quoted(Name(w1)), Quoted(Name(w2)), MismatchAdvice);
      FramedInjective("('", Name(w1), Name(w2), "')");
    }
  }

  /** A concatenation starts with its first part and ends with its last. */
  lemma Framed(a: string, b: string, c: string)
    ensures a <= a + b + c && a + b <= a + b + c
    ensures (a + b + c)[|a + b + c| - |c|..] == c
  {
  }

  /** Equal texts with the same frame hold the same middle. */
  lemma FramedInjective(a: string, b1: string, b2: string, c: string)
    requires a + b1 + c == a + b2 + c
    ensures b1 == b2
  {
    var s := a + b1 + c;
    assert |b1| == |b2|;
    assert b1 == s[|a|..|a| + |b1|];
    assert b2 == (a + b2 + c)[|a|..|a| + |b2|];
  }

  lemma CharOfLead(a: string, b: string, c: string, k: int)
    requires 0 <= k < |a|
    ensures (a + b + c)[k] == a[k]
  {
  }

  /** The subject opens right after the warning sign, with `G` for the GUI check and `M` for the MCP one. */
  lemma SubjectAt(w: Warning)
    ensures |Lead(w)| > |WarningDirective| + |Alert|
    ensures Lead(w)[|WarningDirective| + |Alert|] == Subject(w)[0]
    ensures Subject(w)[0] == if w.GuiNameMismatch? then 'G' else 'M'
  {
  }

  /**
   * `manifest` is the text of `Cargo.toml`, or `None` when it could not be
   * read. The GUI name is checked first, then the MCP server name.
   */
  function CheckCargoTomlSync(c: VocabularyConfig, manifest: Option<string>): (ws: seq<Warning>)
    ensures manifest.None? ==> ws == []
    ensures |ws| <= 2
    ensures GuiNameMismatch(c.executables.guiName) in ws <==>
            manifest.Some? && !exists i :: OccursAt(manifest.value, Pattern(c.executables.guiName), i)
    ensures McpServerNameMismatch(c.executables.mcpServerName) in ws <==>
            manifest.Some? && !exists i :: OccursAt(manifest.value, Pattern(c.executables.mcpServerName), i)
    ensures forall w :: w in ws ==>
            w == GuiNameMismatch(c.executables.guiName) || w == McpServerNameMismatch(c.executables.mcpServerName)
    ensures |ws| == 2 ==> ws[0].GuiNameMismatch? && ws[1].McpServerNameMismatch?
  {
    match manifest
    case None => []
    case Some(text) =>
      var gui, mcp := c.executables.guiName, c.executables.mcpServerName;
      (if !Contains(text, Pattern(gui)) then [GuiNameMismatch(gui)] else [])
      + (if !Contains(text, Pattern(mcp)) then [McpServerNameMismatch(mcp)] else [])
  }

  /**
   * The test is a plain substring test over the whole manifest: a matching
   * `name = "…"` anywhere, in any table, silences the GUI warning.
   */
  lemma DeclaredAnywhereSilencesGuiWarning(c: VocabularyConfig, before: string, after: string)
    ensures GuiNameMismatch(c.executables.guiName)
            !in CheckCargoTomlSync(c, Some(before + Pattern(c.executables.guiName) + after))
  {
    ContainsInfix(before, Pattern(c.executables.guiName), after);
  }

  /** The same holds for the MCP server name. */
  lemma DeclaredAnywhereSilencesMcpWarning(c: VocabularyConfig, before: string, after: string)
    ensures McpServerNameMismatch(c.executables.mcpServerName)
            !in CheckCargoTomlSync(c, Some(before + Pattern(c.executables.mcpServerName) + after))
  {
    ContainsInfix(before, Pattern(c.executables.mcpServerName), after);
  }

  /**
   * Because the pattern includes both quotes, a declaration of one
   * quote-free name never satisfies the check for a different one, not even
   * for a prefix or an extension of it.
   */
  lemma PatternMatchesExactName(n: string, m: string)
    requires '"' !in n && '"' !in m
    ensures Contains(Pattern(m), Pattern(n)) <==> n == m
  {
    var pn, pm := Pattern(n), Pattern(m);
    if Contains(pm, pn) {
      var i :| OccursAt(pm, pn, i);
      assert pm[i + 7] == pn[7] == '"';
      QuotesOfPattern(m, i + 7);
      assert i == 0;
      assert pm[|pn| - 1] == pn[|pn| - 1] == '"';
      QuotesOfPattern(m, |pn| - 1);
      assert |pn| == |pm|;
      assert n == pn[8..|pn| - 1] == pm[8..|pm| - 1] == m;
    }
    if n == m {
      assert OccursAt(pm, pn, 0);
    }
  }

  /** A quote-free name puts quotes into its pattern only around itself. */
  lemma QuotesOfPattern(m: string, k: int)
    requires '"' !in m
    requires 0 <= k < |Pattern(m)| && Pattern(m)[k] == '"'
    ensures k == 7 || k == |Pattern(m)| - 1
  {
  }

  /**
   * Against a manifest that is one declaration `name = "m"`, each check
   * warns exactly when its configured name differs from `m`.
   */
  lemma SingleDeclaration(c: VocabularyConfig, m: string)
    requires '"' !in m && '"' !in c.executables.guiName && '"' !in c.executables.mcpServerName
    ensures GuiNameMismatch(c.executables.guiName) in CheckCargoTomlSync(c, Some(Pattern(m)))
            <==> c.executables.guiName != m
    ensures McpServerNameMismatch(c.executables.mcpServerName) in CheckCargoTomlSync(c, Some(Pattern(m)))
            <==> c.executables.mcpServerName != m
  {
    PatternMatchesExactName(c.executables.guiName, m);
    PatternMatchesExactName(c.executables.mcpServerName, m);
  }

  /** A manifest declaring only the MCP name yields exactly one warning, naming the GUI name. */
  lemma ExampleGuiNameMismatch(c: VocabularyConfig)
    requires c.executables == ExecutableVocabulary("zhi-gui", "zhi-mcp")
    ensures CheckCargoTomlSync(c, Some(Pattern("zhi-mcp"))) == [GuiNameMismatch("zhi-gui")]
  {
    assert "zhi-gui" != "zhi-mcp" by {
      assert "zhi-gui"[4] != "zhi-mcp"[4];
    }
    SingleDeclaration(c, "zhi-mcp");
  }
}
