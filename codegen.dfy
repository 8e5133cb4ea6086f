/**
 * The generator of `vocabulary_generated.rs`. Its output is one fixed
 * template with sixteen holes, filled in order with the configuration's
 * leaves exactly as they are: the template is modelled as seventeen fixed
 * fragments, and the output as those fragments interleaved with the values.
 */
module Codegen {
  import opened Wrappers
  import opened Vocabulary

  /** Comment lines that open the generated file. */
  const Header: string := "// 此文件由 build.rs 自动生成，请勿手动修改\n// 配置来源: vocabulary.toml\n\n"

  const Rule: string := "// ============================================================================\n"

  /** A section banner: the title between two rules, then a blank line. */
  function Banner(title: string): string {
    Rule + "// " + title + "\n" + Rule + "\n"
  }

  /** One `///` doc-comment line per entry. */
  function DocComment(lines: seq<string>): string {
    if lines == [] then "" else "/// " + lines[0] + "\n" + DocComment(lines[1..])
  }

  /** Text of a string constant declaration up to the opening quote of its value. */
  function DeclHead(name: string): string {
    "pub const " + name + ": &str = \""
  }

  /** Closing quote and semicolon of a declaration. */
  const DeclEnd: string := "\";"

  /** Text that closes a declaration line after its value. */
  const Close: string := DeclEnd + "\n"

  /** The declaration of one constant, as it appears in the generated file. */
  function Declaration(name: string, value: string): string {
    DeclHead(name) + value + DeclEnd
  }

  /** One hole of the template: the section it opens (if any), its doc lines, its constant. */
  datatype Slot = Slot(section: Option<string>, doc: seq<string>, name: string)

  const CargoNote: string := "注意：修改后需要同步更新 Cargo.toml 中的 [[bin]] name"

  /** The sixteen holes, in the order their values are supplied. */
  const Slots: seq<Slot> := [
    Slot(Some("应用程序名称"), ["应用程序名称（中文）"], "APP_NAME_ZH"),
    Slot(None, ["应用程序名称（英文）"], "APP_NAME_EN"),
    Slot(None, ["应用程序描述"], "APP_DESCRIPTION"),
    Slot(Some("可执行文件名称"), ["GUI 主程序可执行文件名", CargoNote], "EXECUTABLE_GUI"),
    Slot(None, ["MCP 服务器可执行文件名", CargoNote], "EXECUTABLE_MCP_SERVER"),
    Slot(Some("MCP 工具配置 - 交互工具"), ["MCP 工具 ID - 交互工具（用于 MCP 协议）"], "TOOL_ID_INTERACTION"),
    Slot(None, ["MCP 工具名称 - 交互工具（显示给用户）"], "TOOL_NAME_INTERACTION"),
    Slot(None, ["MCP 工具描述 - 交互工具"], "TOOL_DESC_INTERACTION"),
    Slot(Some("MCP 工具配置 - 记忆管理"), ["MCP 工具 ID - 记忆管理（用于 MCP 协议）"], "TOOL_ID_MEMORY"),
    Slot(None, ["MCP 工具名称 - 记忆管理（显示给用户）"], "TOOL_NAME_MEMORY"),
    Slot(None, ["MCP 工具描述 - 记忆管理"], "TOOL_DESC_MEMORY"),
    Slot(Some("MCP 工具配置 - 代码搜索"), ["MCP 工具 ID - 代码搜索（用于 MCP 协议）"], "TOOL_ID_SEARCH"),
    Slot(None, ["MCP 工具名称 - 代码搜索（显示给用户）"], "TOOL_NAME_SEARCH"),
    Slot(None, ["MCP 工具描述 - 代码搜索"], "TOOL_DESC_SEARCH"),
    Slot(Some("操作动词"), ["记忆管理操作 - 添加记忆"], "ACTION_MEMORY_ADD"),
    Slot(None, ["记忆管理操作 - 回忆/检索记忆"], "ACTION_MEMORY_RECALL")
  ]

  /** The names of the sixteen constants, in hole order. */
  function ConstNames(): (names: seq<string>)
    ensures |names| == LeafCount
  {
    seq(|Slots|, k requires 0 <= k < |Slots| => Slots[k].name)
  }

  /** A backward-compatible alias: a legacy constant bound to another constant's name. */
  datatype Alias = Alias(doc: string, name: string, target: string)

  const Aliases: seq<Alias> := [
    Alias("应用名称别名（兼容旧代码）", "NAME", "APP_NAME_ZH"),
    Alias("应用英文名称别名（兼容旧代码）", "NAME_EN", "APP_NAME_EN"),
    Alias("工具 ID 别名 - zhi（兼容旧代码）", "TOOL_ZHI", "TOOL_ID_INTERACTION"),
    Alias("工具 ID 别名 - ji（兼容旧代码）", "TOOL_JI", "TOOL_ID_MEMORY"),
    Alias("工具 ID 别名 - sou（兼容旧代码）", "TOOL_SOU", "TOOL_ID_SEARCH")
  ]

  function AliasDecl(a: Alias): string {
    "/// " + a.doc + "\n" + "pub const " + a.name + ": &str = " + a.target + ";\n"
  }

  /** Alias declarations, separated by blank lines. */
  function AliasDecls(aliases: seq<Alias>): string {
    if aliases == [] then ""
    else if |aliases| == 1 then AliasDecl(aliases[0])
    else AliasDecl(aliases[0]) + "\n" + AliasDecls(aliases[1..])
  }

  /** The closing block of compatibility aliases; it mentions no configuration value. */
  const AliasBlock: string := Banner("兼容性别名（保持与旧常量名称的兼容）") + AliasDecls(Aliases)

  /** What precedes a hole's declaration: its section banner, if any, and its doc lines. */
  function SlotIntro(s: Slot): string {
    (match s.section case Some(title) => Banner(title) case None => "") + DocComment(s.doc)
  }

  /** What a fragment opens with: the file header, or the close of the previous declaration. */
  function FragmentLead(k: nat): string {
    if k == 0 then Header else Close + "\n"
  }

  /** What a fragment continues with: the next hole's introduction, or the alias block. */
  function FragmentBody(k: nat): string
    requires k <= LeafCount
  {
    if k < LeafCount then SlotIntro(Slots[k]) + DeclHead(Slots[k].name) else AliasBlock
  }

  /**
   * The k-th fixed fragment of the template: the header before the first
   * hole, the text between hole k-1 and hole k, and after the last hole the
   * alias block.
   */
  function Fragment(k: nat): string
    requires k <= LeafCount
  {
    FragmentLead(k) + FragmentBody(k)
  }

  function Fragments(): (fs: seq<string>)
    ensures |fs| == LeafCount + 1
  {
    seq(LeafCount + 1, k requires 0 <= k <= LeafCount => Fragment(k))
  }

  /** fs[0] + vs[0] + fs[1] + vs[1] + ... + fs[n]: a `format!` with one `{}` per value. */
  function Interleave(fs: seq<string>, vs: seq<string>): string
    requires |fs| == |vs| + 1
    decreases |vs|
  {
    if vs == [] then fs[0] else fs[0] + vs[0] + Interleave(fs[1..], vs[1..])
  }

  /** Everything `Interleave` produces before its last fragment. */
  function InterleaveInit(fs: seq<string>, vs: seq<string>): string
    requires |fs| == |vs| + 1
    decreases |vs|
  {
    if vs == [] then "" else fs[0] + vs[0] + InterleaveInit(fs[1..], vs[1..])
  }

  function TotalLength(ss: seq<string>): nat {
    if ss == [] then 0 else |ss[0]| + TotalLength(ss[1..])
  }

  /**
   * The generated Rust source for a configuration: the template with each
   * hole replaced by its value. Every character of every value is in it.
   */
  function Render(c: VocabularyConfig): (r: string)
    ensures |r| >= TotalLength(Leaves(c))
  {
    InterleaveLength(Fragments(), Leaves(c));
    Interleave(Fragments(), Leaves(c))
  }

  /** Characters of the template, values excluded. */
  function TemplateLength(): nat {
    TotalLength(Fragments())
  }

  /** No leaf of the configuration contains a double quote. */
  predicate QuoteFree(c: VocabularyConfig) {
    forall v :: v in Leaves(c) ==> '"' !in v
  }

  // ---------------------------------------------------------------------------
  // Interleaving

  lemma {:induction false} InterleaveLength(fs: seq<string>, vs: seq<string>)
    requires |fs| == |vs| + 1
    ensures |Interleave(fs, vs)| == TotalLength(fs) + TotalLength(vs)
    decreases |vs|
  {
    if vs != [] {
      InterleaveLength(fs[1..], vs[1..]);
    }
  }

  /** The last fragment ends the output. */
  lemma {:induction false} InterleaveEndsWithLast(fs: seq<string>, vs: seq<string>)
    requires |fs| == |vs| + 1
    ensures Interleave(fs, vs) == InterleaveInit(fs, vs) + fs[|vs|]
    decreases |vs|
  {
    if vs != [] {
      var tail := fs[1..];
      InterleaveEndsWithLast(tail, vs[1..]);
      assert tail[|vs| - 1] == fs[|vs|];
      calc {
        Interleave(fs, vs);
        fs[0] + vs[0] + Interleave(tail, vs[1..]);
        fs[0] + vs[0] + (InterleaveInit(tail, vs[1..]) + fs[|vs|]);
        (fs[0] + vs[0] + InterleaveInit(tail, vs[1..])) + fs[|vs|];
      }
    }
  }

  /** Everything `Interleave` produces after its first fragment. */
  function InterleaveRest(fs: seq<string>, vs: seq<string>): string
    requires |fs| == |vs| + 1
  {
    if vs == [] then "" else vs[0] + Interleave(fs[1..], vs[1..])
  }

  /** The first fragment starts the output. */
  lemma InterleaveStartsWithFirst(fs: seq<string>, vs: seq<string>)
    requires |fs| == |vs| + 1
    ensures Interleave(fs, vs) == fs[0] + InterleaveRest(fs, vs)
  {
    if vs != [] {
      assert Interleave(fs, vs) == fs[0] + (vs[0] + Interleave(fs[1..], vs[1..]));
    }
  }

  /**
   * Value i goes in verbatim: the output is the interleaving of what comes
   * before it, the value itself, and the interleaving of what comes after.
   */
  lemma {:induction false} InterleaveSplit(fs: seq<string>, vs: seq<string>, i: nat)
    requires |fs| == |vs| + 1 && i < |vs|
    ensures Interleave(fs, vs) == Interleave(fs[..i + 1], vs[..i]) + vs[i] + Interleave(fs[i + 1..], vs[i + 1..])
    decreases i
  {
    if i == 0 {
      assert fs[..1] == [fs[0]];
    } else {
      InterleaveSplit(fs[1..], vs[1..], i - 1);
      assert fs[1..][..i] == fs[..i + 1][1..];
      assert vs[1..][..i - 1] == vs[..i][1..];
      assert fs[1..][i..] == fs[i + 1..];
      assert vs[1..][i..] == vs[i + 1..];
    }
  }

  /** A quote right after a shorter value tells it apart from a quote-free longer one. */
  lemma QuoteAfterValue(a: string, r1: string, b: string, r2: string)
    requires |a| < |b| && |r1| > 0 && r1[0] == '"' && '"' !in b
    ensures a + r1 != b + r2
  {
    assert (a + r1)[|a|] == '"';
    assert (b + r2)[|a|] == b[|a|];
  }

  /**
   * When every fragment after the first opens with a quote and no value
   * contains one, the output determines the values.
   */
  lemma {:induction false} InterleaveInjective(fs: seq<string>, vs1: seq<string>, vs2: seq<string>)
    requires |fs| == |vs1| + 1 && |vs1| == |vs2|
    requires forall k :: 1 <= k < |fs| ==> |fs[k]| > 0 && fs[k][0] == '"'
    requires forall v :: v in vs1 ==> '"' !in v
    requires forall v :: v in vs2 ==> '"' !in v
    requires Interleave(fs, vs1) == Interleave(fs, vs2)
    ensures vs1 == vs2
    decreases |vs1|
  {
    if vs1 != [] {
      var a, b := vs1[0], vs2[0];
      var r1, r2 := Interleave(fs[1..], vs1[1..]), Interleave(fs[1..], vs2[1..]);
      InterleaveStartsWithFirst(fs[1..], vs1[1..]);
      InterleaveStartsWithFirst(fs[1..], vs2[1..]);
      assert r1[0] == fs[1][0] == '"' && r2[0] == fs[1][0];
      var t1, t2 := a + r1, b + r2;
      assert Interleave(fs, vs1) == fs[0] + t1;
      assert Interleave(fs, vs2) == fs[0] + t2;
      assert t1 == (fs[0] + t1)[|fs[0]|..];
      assert t2 == (fs[0] + t2)[|fs[0]|..];
      assert |a| == |b| by {
        if |a| < |b| {
          QuoteAfterValue(a, r1, b, r2);
        } else if |b| < |a| {
          QuoteAfterValue(b, r2, a, r1);
        }
      }
      assert a == t1[..|a|] && b == t2[..|b|];
      assert r1 == t1[|a|..] && r2 == t2[|b|..];
      InterleaveInjective(fs[1..], vs1[1..], vs2[1..]);
      assert vs1 == [a] + vs1[1..] && vs2 == [b] + vs2[1..];
    }
  }
}

