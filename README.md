# Vocabulary build script of cunzhi, modelled in Dafny

The cunzhi build script (`build.rs`) reads `vocabulary.toml` into a tree of
sixteen strings: the application's names and description, the two
executable names, the id, label and description of three MCP tools, and
two memory action verbs. It then does two things with that tree:

- **The naming check** (`check_cargo_toml_sync`). It tests whether `Cargo.toml` contains
  `name = "<gui_name>"` and `name = "<mcp_server_name>"` as plain substrings.
  For each name it does not find, it prints a warning: GUI first, then MCP.
  If `Cargo.toml` cannot be read, it does nothing. It never fails the build.
- **The code generator** (`generate_vocabulary_code`). It is one `format!`
  call over a fixed Rust template with sixteen `{}` holes, filled in order with
  the raw configuration values. The template ends with five compatibility
  aliases that re-bind constants by name.

The model is pure, as the source is:

- `wrappers.dfy`: the `Option` and `Result` datatypes.
- `text.dfy`: a substring search, proved equivalent to a positional definition
  of "occurs at index i".
- `vocabulary.dfy`: the configuration records and their sixteen leaves, in
  declaration order.
- `codegen.dfy`: the template as seventeen fixed fragments, built from the
  section banners, doc lines and constant names of the sixteen holes. Also
  `Render`, which interleaves the fragments with the leaves, and general facts
  about interleaving.
- `codegen_properties.dfy`: what the rendered file states about the
  configuration.
- `manifest_sync.dfy`: the naming check, which returns its warnings instead of
  printing them.
- `build_script.dfy`: the main sequence. Reading, parsing and writing are
  parameters. A fatal error is a `Result` failure.

The code does not escape values: each value goes between the quotes as it
is, so a `"` in a value ends the string literal early, and a `\` starts an
escape sequence; either can break the generated file or change the constant's
value. A line feed inside the quotes is legal Rust and stays part of the value. `RenderLength` and
`UnescapedValuesCollide` state the consequences.

## Model

| member | source | states |
|---|---|---|
| `Vocabulary.Leaves` | build.rs:6-45 | The sixteen leaves are listed in declaration order, and the configuration can be rebuilt from them, so flattening loses nothing. |
| `Vocabulary.LeavesInjective` | build.rs:6-45 | Configurations with the same sixteen leaves are equal. |
| `Text.Contains` | build.rs:81-85 | The search used by the naming check returns true exactly when the needle occurs at some index of the haystack. |
| `Text.ContainsInfix` | build.rs:81-85 | A needle is found wherever it stands in the text, whatever comes before and after it. |
| `Codegen.Render` | build.rs:91-206 | The generated file is the template filled hole by hole, and every character of every value is in it: it is at least as long as the sixteen values together. |
| `Codegen.InterleaveLength` | build.rs:92-205 | Filling the holes adds exactly the values' characters to the fragments' characters. Nothing is inserted around the values. |
| `Codegen.InterleaveSplit` | build.rs:92-205 | Value i appears verbatim and in one piece. Before it is the interleaving of the earlier fragments and values. After it is the interleaving of the later ones. |
| `Codegen.InterleaveInjective` | build.rs:92-205 | Suppose every fragment after the first opens with a quote and no value contains a quote. Then equal outputs come from equal value lists. |
| `CodegenProperties.RenderDeclares` | build.rs:101-168 | For every hole i, the output contains `pub const <name i>: &str = "<value i>";` with the value unchanged. |
| `CodegenProperties.DeclaresAppLeaves` | build.rs:189-191 | APP_NAME_ZH is declared with app.name_zh, APP_NAME_EN with app.name_en, and APP_DESCRIPTION with app.description. |
| `CodegenProperties.DeclaresExecutableLeaves` | build.rs:192-193 | EXECUTABLE_GUI is declared with executables.gui_name, and EXECUTABLE_MCP_SERVER with executables.mcp_server_name. |
| `CodegenProperties.DeclaresToolLeaves` | build.rs:194-202 | TOOL_ID_, TOOL_NAME_ and TOOL_DESC_ for INTERACTION, MEMORY and SEARCH are declared with the id, name and description of the matching tool. |
| `CodegenProperties.DeclaresActionLeaves` | build.rs:203-204 | ACTION_MEMORY_ADD is declared with actions.memory_add, and ACTION_MEMORY_RECALL with actions.memory_recall. |
| `CodegenProperties.RenderLength` | build.rs:92-205 | The output's length is the fixed template's length plus the sum of the sixteen value lengths. So no quoting or escaping is added. |
| `CodegenProperties.RenderStartsWithHeader` | build.rs:93-94 | For every configuration, the output begins with the generated-file header comment. |
| `CodegenProperties.RenderEndsWithAliasBlock` | build.rs:170-188 | For every configuration, the output ends with the same compatibility-alias block. |
| `CodegenProperties.AliasesRebindDeclaredConstants` | build.rs:174-187 | Each of NAME, NAME_EN, TOOL_ZHI, TOOL_JI and TOOL_SOU is bound to the name of a constant that the file declares, not to a value. |
| `CodegenProperties.RenderInjective` | build.rs:92-205 | If neither configuration contains a double quote, equal generated files mean equal configurations. |
| `CodegenProperties.UnescapedValuesCollide` | build.rs:101-104 | Because nothing is escaped, two different configurations can render to the same file. One example: the first gap's text moves from app.name_zh into app.name_en. |
| `ManifestSync.Pattern` | build.rs:78-79 | The searched text is `name = ` followed by the name between double quotes, and nothing else. |
| `ManifestSync.Message` | build.rs:82-86 | Each warning line starts with `cargo:warning=`, so Cargo shows it as a build warning, and ends with the advice to update the `[[bin]]` name in Cargo.toml. |
| `ManifestSync.MessageInjective` | build.rs:81-87 | Different warnings print different lines: the line tells which of the two checks failed and which name it was about. |
| `ManifestSync.MessageNamesValue` | build.rs:82-86 | Each warning line quotes, as `('<name>')`, the configured executable name it reports. |
| `ManifestSync.CheckCargoTomlSync` | build.rs:75-89 | An unreadable manifest gives no warnings. Otherwise there is a GUI warning exactly when `name = "<gui_name>"` occurs nowhere in the text, and likewise for the MCP name. There are at most two warnings, only these two, and GUI comes before MCP. |
| `ManifestSync.DeclaredAnywhereSilencesGuiWarning` | build.rs:78-83 | The test runs over the whole text: a matching `name = "…"` anywhere, in any table, prevents the GUI warning. |
| `ManifestSync.DeclaredAnywhereSilencesMcpWarning` | build.rs:79-87 | The same holds for the MCP server name. |
| `ManifestSync.PatternMatchesExactName` | build.rs:78-79 | Take two names without quotes. The pattern for one occurs in the declaration of the other only when the names are equal. A prefix or an extension of a declared name does not match. |
| `ManifestSync.SingleDeclaration` | build.rs:78-87 | Against a manifest that is just `name = "m"`, each check warns exactly when its configured name is not m. |
| `ManifestSync.ExampleGuiNameMismatch` | build.rs:81-87 | With gui_name `zhi-gui` and a manifest declaring only `zhi-mcp`, the result is exactly one warning, and it names `zhi-gui`. |
| `BuildScript.Build` | build.rs:52-73 | An unreadable vocabulary file fails the build with `ConfigUnreadable`, one that does not parse with `ConfigMalformed`, and an output file that cannot be written with `OutputUnwritable`. The build succeeds exactly when the file is read, parsed and written. On success, the written file is the rendered configuration and the warnings are the naming check's. |
| `BuildScript.ManifestIsAdvisory` | build.rs:61-73 | The manifest's content, or whether it can be read at all, changes neither the build's outcome nor the generated file. |

## Left out

- `tauri_build::build()` (build.rs:49) is a call into another crate and is not modelled.
- TOML deserialization (build.rs:58) is library code. It is the `parse` parameter of `Build`, and the model does not fix its behaviour.
- The file system, the `OUT_DIR` variable and the output path (build.rs:55, 65-70) are not modelled. Whether each read or write succeeds is an input.
- The `cargo:rerun-if-changed` directive and the success message (build.rs:53, 72) are build-tool plumbing and are not modelled.
- BuildScript.Build: when the output cannot be written, the warnings printed before the failure are not part of the failure value.
- Codegen.Render: its own contract only bounds the length from below. The exact length is stated by `CodegenProperties.RenderLength`. Stating it needs the whole template expanded, and that is kept out of the contract every use of `Render` sees.
- CodegenProperties.RenderLength: it counts Unicode scalar values (Dafny characters), not the UTF-8 bytes of a Rust `String`.
- Render's determinism (equal configurations give equal files) holds by construction, since `Render` is a function. No separate lemma states it.
- vite-plugin-vocabulary.ts is not part of this model. It reads the file, parses TOML and calls `JSON.stringify`, all library calls and I/O.
- src/rust/constants/vocabulary.rs only includes the generated file and has no logic.
