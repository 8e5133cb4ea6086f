/** What the generated file says about the configuration it was rendered from. */
module CodegenProperties {
  import opened Text
  import opened Vocabulary
  import opened Codegen

  /** `Close` is the `";` of a declaration followed by the end of its line. */
  lemma CloseShape()
    ensures Close == DeclEnd + "\n" && |Close| == 3 && Close[0] == '"'
  {
  }

  /** Every fragment after the first opens with the `";` that closes a declaration. */
  lemma FragmentOpensWithClose(k: nat)
    requires 1 <= k <= LeafCount
    ensures Fragment(k) == Close + ("\n" + FragmentBody(k))
    ensures |Fragment(k)| > 0 && Fragment(k)[0] == '"'
  {
    var body := FragmentBody(k);
    assert Fragment(k) == FragmentLead(k) + body;
    assert FragmentLead(k) == Close + "\n";
    CloseShape();
    FirstOfConcat(Close, "\n" + body);
  }

  lemma FirstOfConcat(x: string, y: string)
    requires |x| > 0
    ensures (x + y)[0] == x[0]
  {
  }

  lemma Assoc(a: string, b: string, c: string)
    ensures (a + b) + c == a + (b + c)
  {
  }

  lemma Regroup(p: string, d: string, v: string, q: string, post: string)
    ensures (p + d) + v + (q + post) == p + (d + v + q) + post
  {
  }

  /**
   * In any interleaving, a value whose preceding fragment ends with a
   * declaration head and whose following fragment opens with `";` is
   * declared verbatim under that name.
   */
  lemma InterleaveDeclares(fs: seq<string>, vs: seq<string>, i: nat, lead: string, name: string, gap: string)
    requires |fs| == |vs| + 1 && i < |vs|
    requires fs[i] == lead + DeclHead(name)
    requires fs[i + 1] == DeclEnd + gap
    ensures Contains(Interleave(fs, vs), Declaration(name, vs[i]))
  {
    var before, after := Interleave(fs[..i + 1], vs[..i]), Interleave(fs[i + 1..], vs[i + 1..]);
    var init, rest := InterleaveInit(fs[..i + 1], vs[..i]), InterleaveRest(fs[i + 1..], vs[i + 1..]);
    var pre, post := init + lead, gap + rest;
    var decl := Declaration(name, vs[i]);
    assert before == pre + DeclHead(name) by {
      InterleaveEndsWithLast(fs[..i + 1], vs[..i]);
      assert fs[..i + 1][i] == fs[i];
      Assoc(init, lead, DeclHead(name));
    }
    assert after == DeclEnd + post by {
      InterleaveStartsWithFirst(fs[i + 1..], vs[i + 1..]);
      assert fs[i + 1..][0] == fs[i + 1];
      Assoc(DeclEnd, gap, rest);
    }
    assert Interleave(fs, vs) == pre + decl + post by {
      InterleaveSplit(fs, vs, i);
      Regroup(pre, DeclHead(name), vs[i], DeclEnd, post);
    }
    ContainsInfix(pre, decl, post);
  }

  /** Each hole's value sits between its declaration head and the closing `";`. */
  lemma RenderDeclares(c: VocabularyConfig, i: nat)
    requires i < LeafCount
    ensures Contains(Render(c), Declaration(ConstNames()[i], Leaves(c)[i]))
  {
    var fs := Fragments();
    var lead, name := FragmentLead(i) + SlotIntro(Slots[i]), ConstNames()[i];
    var gap := "\n" + ("\n" + FragmentBody(i + 1));
    FragmentEndsWithDeclHead(i);
    FragmentOpensWithDeclEnd(i + 1);
    InterleaveDeclares(fs, Leaves(c), i, lead, name, gap);
  }

  lemma FragmentEndsWithDeclHead(i: nat)
    requires i < LeafCount
    ensures Fragments()[i] == (FragmentLead(i) + SlotIntro(Slots[i])) + DeclHead(ConstNames()[i])
  {
    var lead, intro, head := FragmentLead(i), SlotIntro(Slots[i]), DeclHead(Slots[i].name);
    assert ConstNames()[i] == Slots[i].name;
    assert Fragments()[i] == Fragment(i) == lead + (intro + head);
    Assoc(lead, intro, head);
  }

  lemma FragmentOpensWithDeclEnd(k: nat)
    requires 1 <= k <= LeafCount
    ensures Fragments()[k] == DeclEnd + ("\n" + ("\n" + FragmentBody(k)))
  {
    FragmentOpensWithClose(k);
    CloseShape();
    Assoc(DeclEnd, "\n", "\n" + FragmentBody(k));
  }

  /** Each leaf is declared once it is known to sit at its hole. */
  lemma DeclaresHoles(c: VocabularyConfig, lo: nat, hi: nat)
    requires lo <= hi <= LeafCount
    ensures forall k :: lo <= k < hi ==> Contains(Render(c), Declaration(ConstNames()[k], Leaves(c)[k]))
  {
    forall k | lo <= k < hi
      ensures Contains(Render(c), Declaration(ConstNames()[k], Leaves(c)[k]))
    {
      RenderDeclares(c, k);
    }
  }

  /** Which value lands under which constant name: application identity. */
  lemma DeclaresAppLeaves(c: VocabularyConfig)
    ensures Contains(Render(c), Declaration("APP_NAME_ZH", c.app.nameZh))
    ensures Contains(Render(c), Declaration("APP_NAME_EN", c.app.nameEn))
    ensures Contains(Render(c), Declaration("APP_DESCRIPTION", c.app.description))
  {
    ConstNamesListed();
    DeclaresHoles(c, 0, 3);
  }

  /** Which value lands under which constant name: executable names. */
  lemma DeclaresExecutableLeaves(c: VocabularyConfig)
    ensures Contains(Render(c), Declaration("EXECUTABLE_GUI", c.executables.guiName))
    ensures Contains(Render(c), Declaration("EXECUTABLE_MCP_SERVER", c.executables.mcpServerName))
  {
    ConstNamesListed();
    DeclaresHoles(c, 3, 5);
  }

  /** Which value lands under which constant name: the three MCP tools. */
  lemma DeclaresToolLeaves(c: VocabularyConfig)
    ensures Contains(Render(c), Declaration("TOOL_ID_INTERACTION", c.mcpTools.interaction.id))
    ensures Contains(Render(c), Declaration("TOOL_NAME_INTERACTION", c.mcpTools.interaction.name))
    ensures Contains(Render(c), Declaration("TOOL_DESC_INTERACTION", c.mcpTools.interaction.description))
    ensures Contains(Render(c), Declaration("TOOL_ID_MEMORY", c.mcpTools.memory.id))
    ensures Contains(Render(c), Declaration("TOOL_NAME_MEMORY", c.mcpTools.memory.name))
    ensures Contains(Render(c), Declaration("TOOL_DESC_MEMORY", c.mcpTools.memory.description))
    ensures Contains(Render(c), Declaration("TOOL_ID_SEARCH", c.mcpTools.search.id))
    ensures Contains(Render(c), Declaration("TOOL_NAME_SEARCH", c.mcpTools.search.name))
    ensures Contains(Render(c), Declaration("TOOL_DESC_SEARCH", c.mcpTools.search.description))
  {
    ConstNamesListed();
    DeclaresHoles(c, 5, 14);
  }

  /** Which value lands under which constant name: the memory action verbs. */
  lemma DeclaresActionLeaves(c: VocabularyConfig)
    ensures Contains(Render(c), Declaration("ACTION_MEMORY_ADD", c.actions.memoryAdd))
    ensures Contains(Render(c), Declaration("ACTION_MEMORY_RECALL", c.actions.memoryRecall))
  {
    ConstNamesListed();
    DeclaresHoles(c, 14, 16);
  }

  /** The constant names, hole by hole. */
  lemma ConstNamesListed()
    ensures ConstNames() == [
      "APP_NAME_ZH", "APP_NAME_EN", "APP_DESCRIPTION", "EXECUTABLE_GUI", "EXECUTABLE_MCP_SERVER",
      "TOOL_ID_INTERACTION", "TOOL_NAME_INTERACTION", "TOOL_DESC_INTERACTION",
      "TOOL_ID_MEMORY", "TOOL_NAME_MEMORY", "TOOL_DESC_MEMORY",
      "TOOL_ID_SEARCH", "TOOL_NAME_SEARCH", "TOOL_DESC_SEARCH",
      "ACTION_MEMORY_ADD", "ACTION_MEMORY_RECALL"]
  {
  }

  /**
   * Values go in without quoting or escaping: the output is the fixed
   * template's characters plus exactly the characters of the sixteen values.
   */
  lemma RenderLength(c: VocabularyConfig)
    ensures |Render(c)| == TemplateLength()
      + |c.app.nameZh| + |c.app.nameEn| + |c.app.description|
      + |c.executables.guiName| + |c.executables.mcpServerName|
      + |c.mcpTools.interaction.id| + |c.mcpTools.interaction.name| + |c.mcpTools.interaction.description|
      + |c.mcpTools.memory.id| + |c.mcpTools.memory.name| + |c.mcpTools.memory.description|
      + |c.mcpTools.search.id| + |c.mcpTools.search.name| + |c.mcpTools.search.description|
      + |c.actions.memoryAdd| + |c.actions.memoryRecall|
  {
    var vs := Leaves(c);
    InterleaveLength(Fragments(), vs);
    TotalLengthOfSixteen(vs);
  }

  lemma TotalLengthOfSixteen(vs: seq<string>)
    requires |vs| == 16
    ensures TotalLength(vs) == |vs[0]| + |vs[1]| + |vs[2]| + |vs[3]| + |vs[4]| + |vs[5]| + |vs[6]| + |vs[7]|
      + |vs[8]| + |vs[9]| + |vs[10]| + |vs[11]| + |vs[12]| + |vs[13]| + |vs[14]| + |vs[15]|
  {
    forall k | 0 <= k < 16
      ensures TotalLength(vs[k..]) == |vs[k]| + TotalLength(vs[k + 1..])
    {
      assert vs[k..][1..] == vs[k + 1..];
    }
    assert vs[16..] == [];
    assert vs[0..] == vs;
  }

  /** Whatever the configuration, the output opens with the generated-file header. */
  lemma RenderStartsWithHeader(c: VocabularyConfig)
    ensures Header <= Render(c)
  {
    var fs, vs := Fragments(), Leaves(c);
    var body, rest := FragmentBody(0), InterleaveRest(fs, vs);
    assert fs[0] == Header + body by {
      assert fs[0] == Fragment(0);
    }
    InterleaveStartsWithFirst(fs, vs);
    PrefixOfConcat(Header, body, rest);
  }

  lemma PrefixOfConcat(h: string, b: string, r: string)
    ensures h <= (h + b) + r
  {
    assert ((h + b) + r)[..|h|] == h;
  }

  /** Whatever the configuration, the output ends with the same alias block. */
  lemma RenderEndsWithAliasBlock(c: VocabularyConfig)
    ensures |AliasBlock| <= |Render(c)|
    ensures Render(c)[|Render(c)| - |AliasBlock|..] == AliasBlock
  {
    var fs, vs := Fragments(), Leaves(c);
    var init, lead := InterleaveInit(fs, vs), FragmentLead(LeafCount);
    assert Render(c) == init + (lead + AliasBlock) by {
      assert fs[LeafCount] == Fragment(LeafCount);
      InterleaveEndsWithLast(fs, vs);
    }
    SuffixOfConcat(init, lead, AliasBlock);
  }

  lemma SuffixOfConcat(i: string, l: string, b: string)
    ensures |b| <= |i + (l + b)|
    ensures (i + (l + b))[|i + (l + b)| - |b|..] == b
  {
    assert (i + (l + b)) == (i + l) + b;
  }

  /** The aliases re-bind constants the file declares rather than carrying values. */
  lemma AliasesRebindDeclaredConstants()
    ensures forall a :: a in Aliases ==> a.target in ConstNames()
  {
    var names := ConstNames();
    assert names[0] == "APP_NAME_ZH" && names[1] == "APP_NAME_EN";
    assert names[5] == "TOOL_ID_INTERACTION" && names[8] == "TOOL_ID_MEMORY" && names[11] == "TOOL_ID_SEARCH";
  }

  /** Without quotes in its values, the generated file determines the configuration. */
  lemma RenderInjective(c1: VocabularyConfig, c2: VocabularyConfig)
    requires QuoteFree(c1) && QuoteFree(c2)
    requires Render(c1) == Render(c2)
    ensures c1 == c2
  {
    var fs := Fragments();
    forall k | 1 <= k < |fs|
      ensures |fs[k]| > 0 && fs[k][0] == '"'
    {
      FragmentOpensWithClose(k);
    }
    InterleaveInjective(fs, Leaves(c1), Leaves(c2));
    LeavesInjective(c1, c2);
  }

  /**
   * With quotes allowed, two different configurations render to the same
   * file: moving the text of the first gap from one value into the next one
   * does not change the output, because nothing is escaped.
   */
  lemma UnescapedValuesCollide(c: VocabularyConfig, a: string, b: string, x: string)
    ensures var c1 := c.(app := c.app.(nameZh := a + Fragment(1) + b, nameEn := x));
            var c2 := c.(app := c.app.(nameZh := a, nameEn := b + Fragment(1) + x));
            c1 != c2 && Render(c1) == Render(c2)
  {
    var c1 := c.(app := c.app.(nameZh := a + Fragment(1) + b, nameEn := x));
    var c2 := c.(app := c.app.(nameZh := a, nameEn := b + Fragment(1) + x));
    assert c1 != c2 by {
      FragmentOpensWithClose(1);
      assert |c1.app.nameZh| != |c2.app.nameZh|;
    }
    assert Render(c1) == Render(c2) by {
      var fs := Fragments();
      assert fs[1] == Fragment(1);
      InterleaveShift(fs, Leaves(c1), Leaves(c2), a, b, x);
    }
  }

  /** Text moved across a gap, together with a copy of the gap, leaves an interleaving unchanged. */
  lemma InterleaveShift(fs: seq<string>, vs1: seq<string>, vs2: seq<string>, a: string, b: string, x: string)
    requires |fs| == |vs1| + 1 && |vs1| == |vs2| && |vs1| >= 2
    requires vs1[0] == a + fs[1] + b && vs1[1] == x
    requires vs2[0] == a && vs2[1] == b + fs[1] + x
    requires vs1[2..] == vs2[2..]
    ensures Interleave(fs, vs1) == Interleave(fs, vs2)
  {
    var f0, f1 := fs[0], fs[1];
    var rest := Interleave(fs[2..], vs1[2..]);
    var r1, r2 := Interleave(fs[1..], vs1[1..]), Interleave(fs[1..], vs2[1..]);
    assert r1 == f1 + x + rest by {
      assert fs[1..][1..] == fs[2..] && vs1[1..][1..] == vs1[2..];
    }
    assert r2 == f1 + (b + f1 + x) + rest by {
      assert fs[1..][1..] == fs[2..] && vs2[1..][1..] == vs2[2..];
    }
    assert Interleave(fs, vs1) == f0 + (a + f1 + b) + r1;
    assert Interleave(fs, vs2) == f0 + a + r2;
    ShiftRegroup(f0, a, f1, b, x, rest);
  }

  lemma ShiftRegroup(f0: string, a: string, f1: string, b: string, x: string, rest: string)
    ensures f0 + (a + f1 + b) + (f1 + x + rest) == f0 + a + (f1 + (b + f1 + x) + rest)
  {
  }
}
