/**
 * The vocabulary configuration tree read from `vocabulary.toml`: application
 * identity, executable names, the three MCP tools and the memory action verbs.
 * Every field is required; the tree has sixteen string leaves.
 */
module Vocabulary {

  datatype AppVocabulary = AppVocabulary(nameZh: string, nameEn: string, description: string)

  datatype ExecutableVocabulary = ExecutableVocabulary(guiName: string, mcpServerName: string)

  /** One MCP tool: protocol identifier, label shown to users, description. */
  datatype ToolConfig = ToolConfig(id: string, name: string, description: string)

  datatype McpToolsVocabulary = McpToolsVocabulary(interaction: ToolConfig, memory: ToolConfig, search: ToolConfig)

  datatype ActionsVocabulary = ActionsVocabulary(memoryAdd: string, memoryRecall: string)

  datatype VocabularyConfig = VocabularyConfig(
    app: AppVocabulary,
    executables: ExecutableVocabulary,
    mcpTools: McpToolsVocabulary,
    actions: ActionsVocabulary)

  /** Number of string leaves in a configuration. */
  const LeafCount := 16

  /**
   * The sixteen leaves in declaration order, which is also the order in which
   * the code generator substitutes them into its template.
   */
  function Leaves(c: VocabularyConfig): (r: seq<string>)
    ensures |r| == LeafCount
    ensures FromLeaves(r) == c
  {
    [ c.app.nameZh, c.app.nameEn, c.app.description,
      c.executables.guiName, c.executables.mcpServerName,
      c.mcpTools.interaction.id, c.mcpTools.interaction.name, c.mcpTools.interaction.description,
      c.mcpTools.memory.id, c.mcpTools.memory.name, c.mcpTools.memory.description,
      c.mcpTools.search.id, c.mcpTools.search.name, c.mcpTools.search.description,
      c.actions.memoryAdd, c.actions.memoryRecall ]
  }

  /** Rebuilds a configuration from its leaves in declaration order. */
  function FromLeaves(s: seq<string>): (c: VocabularyConfig)
    requires |s| == LeafCount
  {
    VocabularyConfig(
      AppVocabulary(s[0], s[1], s[2]),
      ExecutableVocabulary(s[3], s[4]),
      McpToolsVocabulary(ToolConfig(s[5], s[6], s[7]), ToolConfig(s[8], s[9], s[10]), ToolConfig(s[11], s[12], s[13])),
      ActionsVocabulary(s[14], s[15]))
  }

  /** Flattening loses nothing: configurations with equal leaves are equal. */
  lemma LeavesInjective(c1: VocabularyConfig, c2: VocabularyConfig)
    requires Leaves(c1) == Leaves(c2)
    ensures c1 == c2
  {
  }
}
