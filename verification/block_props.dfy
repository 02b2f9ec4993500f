/** Properties of the block-level line loop of the slide generator: the
    invariant on its flags, what code and pre lines produce, how the fences
    interact, how list items group, and the balance of the section and list
    fragments in the finished document. */
module BlockProps {
  import opened Escape
  import opened Inline
  import opened Block

  function Bit(b: bool): int {
    if b then 1 else 0
  }

  /** +1 for a fragment that opens a section, -1 for one that closes it. */
  function SectionDelta(p: Piece): int {
    match p
    case Fixed(SectionH1) => 1
    case Fixed(SectionH2) => 1
    case Fixed(SectionClose) => -1
    case Fixed(FinalSectionClose) => -1
    case _ => 0
  }

  /** +1 for `<ul>`, -1 for `</ul>`. */
  function ListDelta(p: Piece): int {
    match p
    case Fixed(ListOpen) => 1
    case Fixed(ListClose) => -1
    case _ => 0
  }

  /** Section openings minus section closings among `ps`. */
  function SectionBalance(ps: seq<Piece>): int {
    if ps == [] then 0 else SectionDelta(ps[0]) + SectionBalance(ps[1..])
  }

  /** List openings minus list closings among `ps`. */
  function ListBalance(ps: seq<Piece>): int {
    if ps == [] then 0 else ListDelta(ps[0]) + ListBalance(ps[1..])
  }

  lemma {:induction false} BalanceAppend(a: seq<Piece>, b: seq<Piece>)
    ensures SectionBalance(a + b) == SectionBalance(a) + SectionBalance(b)
    ensures ListBalance(a + b) == ListBalance(a) + ListBalance(b)
  {
    if a == [] {
      assert a + b == b;
    } else {
      assert (a + b)[1..] == a[1..] + b;
      BalanceAppend(a[1..], b);
    }
  }

  lemma FlattenPair(a: Piece, b: Piece)
    ensures Flatten([a, b]) == PieceText(a) + PieceText(b)
  {
    var ss := Texts([a, b]);
    assert ss == [PieceText(a), PieceText(b)];
    assert ss[1..] == [PieceText(b)] && ss[1..][1..] == [];
    assert Concat(ss[1..]) == PieceText(b) + Concat([]);
  }

  /** `Run` extended by one line. */
  lemma RunSnoc(f: Flags, lines: seq<string>, line: string)
    ensures Run(f, lines + [line]).next == Next(Run(f, lines).next, line).next
    ensures Run(f, lines + [line]).pieces == Run(f, lines).pieces + Next(Run(f, lines).next, line).pieces
  {
    assert (lines + [line])[..|lines|] == lines;
  }

  // ---------------------------------------------------------------- flags

  /** One line keeps the invariant that no list is open inside a code or a
      pre block. */
  lemma NextConsistent(f: Flags, line: string)
    requires Consistent(f)
    ensures Consistent(Next(f, line).next)
  {
  }

  lemma {:induction false} RunConsistent(f: Flags, lines: seq<string>)
    requires Consistent(f)
    ensures Consistent(Run(f, lines).next)
    decreases |lines|
  {
    if lines != [] {
      var init := lines[..|lines| - 1];
      RunConsistent(f, init);
      NextConsistent(Run(f, init).next, lines[|lines| - 1]);
    }
  }

  /** Once a section is open it stays open until the end of the document:
      no line clears the flag. */
  lemma {:induction false} RunKeepsSection(f: Flags, lines: seq<string>)
    requires f.inSection
    ensures Run(f, lines).next.inSection
    decreases |lines|
  {
    if lines != [] {
      RunKeepsSection(f, lines[..|lines| - 1]);
    }
  }

  // ------------------------------------------------------ code and pre lines

  /** Inside a code block every line but a fence is escaped and followed by
      a newline, whatever prefix it has; the flags do not change and the
      text written holds no raw angle bracket. */
  lemma CodeLine(f: Flags, line: string)
    requires f.inCode && !IsFence(line)
    ensures Next(f, line).next == f
    ensures Flatten(Next(f, line).pieces) == EscapeHtml(line) + "\n"
    ensures '<' !in Flatten(Next(f, line).pieces) && '>' !in Flatten(Next(f, line).pieces)
  {
    FlattenPair(Escaped(line), Fixed(Newline));
    EscapeNoAngle(line);
  }

  /** Inside a pre block (and no code block) every line but a fence is
      copied verbatim, followed by a newline. */
  lemma PreLine(f: Flags, line: string)
    requires f.inPre && !f.inCode && !IsFence(line)
    ensures Next(f, line).next == f
    ensures Flatten(Next(f, line).pieces) == line + "\n"
  {
    FlattenPair(Verbatim(line), Fixed(Newline));
  }

  // ------------------------------------------------------------- fences

  predicate IsCodeFence(line: string) {
    line == "```c" || line == "```csmall"
  }

  /** ```c and ```csmall share one flag: a block opened by either is closed
      by either, with `</code></pre>`. */
  lemma CodeFencesShareFlag(f: Flags, a: string, b: string)
    requires !f.inCode && IsCodeFence(a) && IsCodeFence(b)
    ensures Next(f, a).next.inCode && !Next(f, a).next.inList
    ensures var g := Next(f, a).next;
      !Next(g, b).next.inCode && Next(g, b).pieces == [Fixed(CodePreClose)]
  {
  }

  /** A ```c line inside a ``` block opens a code block without closing the
      pre block: both flags are then set. */
  lemma CodeInsidePre(f: Flags)
    requires Consistent(f) && f.inPre && !f.inCode
    ensures var g := Next(f, "```c").next;
      g.inPre && g.inCode && Next(f, "```c").pieces == [Fixed(CodeOpen)]
  {
  }

  /** With both flags set, a ```c or ```csmall line closes the code block
      with `</code></pre>` and leaves the pre block open. */
  lemma CodeInPreClosed(f: Flags, line: string)
    requires f.inCode && f.inPre && IsCodeFence(line)
    ensures var e := Next(f, line);
      !e.next.inCode && e.next.inPre && e.next.inSection == f.inSection
      && e.pieces == [Fixed(CodePreClose)]
  {
  }

  /** ``` closes whatever block is open, both at once when both are. */
  lemma PlainFenceCloses(f: Flags)
    requires f.inCode || f.inPre
    ensures var e := Next(f, "```");
      !e.next.inCode && !e.next.inPre
      && e.pieces == (if f.inCode then [Fixed(CodeClose)] else []) + [Fixed(PreClose)]
  {
  }

  /** The consequence for the document: ```, ```c, ``` opens a pre block,
      opens a code block inside it, and closes both with one `</pre>`. */
  lemma NestedFencePieces()
    ensures Document(["```", "```c", "```"])
         == [Fixed(PreOpen), Fixed(CodeOpen), Fixed(CodeClose), Fixed(PreClose)]
  {
    var pre := Flags(false, false, false, true);
    var both := Flags(false, false, true, true);
    assert Run(Start, ["```"]) == Emit(pre, [Fixed(PreOpen)]) by {
      assert Run(Start, []) == Emit(Start, []);
      RunSnoc(Start, [], "```");
      assert [] + ["```"] == ["```"];
      assert Next(Start, "```") == Emit(pre, [Fixed(PreOpen)]);
    }
    assert Run(Start, ["```", "```c"]) == Emit(both, [Fixed(PreOpen), Fixed(CodeOpen)]) by {
      RunSnoc(Start, ["```"], "```c");
      assert ["```"] + ["```c"] == ["```", "```c"];
      assert Next(pre, "```c") == Emit(both, [Fixed(CodeOpen)]);
    }
    assert Run(Start, ["```", "```c", "```"])
        == Emit(Start, [Fixed(PreOpen), Fixed(CodeOpen), Fixed(CodeClose), Fixed(PreClose)]) by {
      RunSnoc(Start, ["```", "```c"], "```");
      assert ["```", "```c"] + ["```"] == ["```", "```c", "```"];
      assert Next(both, "```") == Emit(Start, [Fixed(CodeClose), Fixed(PreClose)]);
    }
  }

  lemma NestedFenceText()
    ensures Flatten([Fixed(PreOpen), Fixed(CodeOpen), Fixed(CodeClose), Fixed(PreClose)])
         == TagText(PreOpen) + TagText(CodeOpen) + TagText(CodeClose) + TagText(PreClose)
  {
    var a := [Fixed(PreOpen), Fixed(CodeOpen)];
    var b := [Fixed(CodeClose), Fixed(PreClose)];
    assert a + b == [Fixed(PreOpen), Fixed(CodeOpen), Fixed(CodeClose), Fixed(PreClose)];
    TextsAppend(a, b);
    ConcatAppend(Texts(a), Texts(b));
    FlattenPair(Fixed(PreOpen), Fixed(CodeOpen));
    FlattenPair(Fixed(CodeClose), Fixed(PreClose));
  }

  /** The same as text: two `<pre>` openings and one `</pre>`. */
  lemma NestedFences()
    ensures Html(["```", "```c", "```"])
         == "<pre>\n" + "<pre><code class=\"language-c\">\n" + "</code>\n" + "</pre>\n"
  {
    NestedFencePieces();
    NestedFenceText();
  }

  // ------------------------------------------------------------- headings

  /** `# ` headings are rendered from offset 2. */
  lemma H1Text(f: Flags, text: string)
    requires !f.inCode && !f.inPre
    ensures var ps := Next(f, "# " + text).pieces;
      |ps| >= 2 && ps[|ps| - 2] == Inline(text) && ps[|ps| - 1] == Fixed(H1Close)
  {
    var h := "# " + text;
    assert StartsWith(h, "# ") && h[2..] == text;
    assert !IsFence(h) by { assert h[0] == '#'; }
  }

  /** `## ` headings are rendered from offset 2 as well, one character
      before their text, so the text keeps a leading space. */
  lemma H2Text(f: Flags, text: string)
    requires !f.inCode && !f.inPre
    ensures var ps := Next(f, "## " + text).pieces;
      |ps| >= 2 && ps[|ps| - 2] == Inline(" " + text) && ps[|ps| - 1] == Fixed(H2Close)
  {
    var h := "## " + text;
    assert !StartsWith(h, "# ") by { assert h[1] == '#'; }
    assert StartsWith(h, "## ") && h[2..] == " " + text;
    assert !IsFence(h) by { assert h[0] == '#'; }
  }

  /** `### ` headings are rendered from offset 3, again one character
      before their text. */
  lemma H3Text(f: Flags, text: string)
    requires !f.inCode && !f.inPre
    ensures var ps := Next(f, "### " + text).pieces;
      |ps| >= 2 && ps[|ps| - 2] == Inline(" " + text) && ps[|ps| - 1] == Fixed(H3Close)
  {
    var h := "### " + text;
    assert !StartsWith(h, "# ") by { assert h[1] == '#'; }
    assert !StartsWith(h, "## ") by { assert h[2] == '#'; }
    assert StartsWith(h, "### ") && h[3..] == " " + text;
    assert !IsFence(h) by { assert h[0] == '#'; }
  }

  /** The leading space reaches the page: it is copied before the
      rendered text. */
  lemma LeadingSpaceKept(text: string)
    ensures PieceText(Inline(" " + text)) == " " + PieceText(Inline(text))
  {
    RenderCons(' ', text);
  }

  // ---------------------------------------------------------------- lists

  predicate AllItems(items: seq<string>) {
    forall i :: 0 <= i < |items| ==> StartsWith(items[i], "- ")
  }

  /** One `- ` line outside code and pre blocks: the list is open after
      it, `<ul>` is written only when it was not, and no `</ul>` is. */
  lemma ItemStep(g: Flags, line: string)
    requires !g.inCode && !g.inPre && StartsWith(line, "- ")
    ensures Next(g, line).next == g.(inList := true)
    ensures ListBalance(Next(g, line).pieces) == if g.inList then 0 else 1
    ensures Fixed(ListClose) !in Next(g, line).pieces
  {
    assert !IsFence(line) && !StartsWith(line, "# ") && !StartsWith(line, "## ")
        && !StartsWith(line, "### ") && !StartsWith(line, "> ") by {
      assert line[0] == '-';
    }
    ItemLineBalance(g, line);
    assert Next(g, line).pieces
        == When(!g.inList, ListOpen) + [Fixed(ItemOpen), Inline(line[2..]), Fixed(ItemClose)];
  }

  /** A run of `- ` lines outside code and pre blocks forms one list: one
      `<ul>` when none was open and none when one was, no `</ul>`, and the
      list is open afterwards. */
  lemma {:induction false} ItemsGroup(f: Flags, items: seq<string>)
    requires !f.inCode && !f.inPre && items != [] && AllItems(items)
    ensures var e := Run(f, items);
      e.next == f.(inList := true)
      && ListBalance(e.pieces) == (if f.inList then 0 else 1)
      && Fixed(ListClose) !in e.pieces
    decreases |items|
  {
    var init := items[..|items| - 1];
    var line := items[|items| - 1];
    var g := if init == [] then f else f.(inList := true);
    if init != [] {
      forall i | 0 <= i < |init| ensures StartsWith(init[i], "- ") {
        assert init[i] == items[i];
      }
      ItemsGroup(f, init);
    }
    assert Run(f, init).next == g;
    ItemStep(g, line);
    BalanceAppend(Run(f, init).pieces, Next(g, line).pieces);
  }

  /** A blank line after a run of items closes the list: as many `</ul>`
      as `<ul>`. */
  lemma ListThenBlank(f: Flags, items: seq<string>)
    requires !f.inCode && !f.inPre && !f.inList && items != [] && AllItems(items)
    ensures var e := Run(f, items + [""]);
      !e.next.inList && ListBalance(e.pieces) == 0
  {
    ItemsGroup(f, items);
    RunSnoc(f, items, "");
    var g := Run(f, items).next;
    assert !IsFence("") && !StartsWith("", "# ") && !StartsWith("", "## ");
    assert Next(g, "").pieces == [Fixed(ListClose)];
    SingleBalance(Fixed(ListClose));
    BalanceAppend(Run(f, items).pieces, [Fixed(ListClose)]);
  }

  lemma WhenBalance(c: bool, t: Tag)
    ensures SectionBalance(When(c, t)) == (if c then SectionDelta(Fixed(t)) else 0)
    ensures ListBalance(When(c, t)) == (if c then ListDelta(Fixed(t)) else 0)
  {
    if c {
      assert When(c, t)[1..] == [];
    }
  }

  lemma SingleBalance(p: Piece)
    ensures SectionBalance([p]) == SectionDelta(p) && ListBalance([p]) == ListDelta(p)
  {
    assert [p][1..] == [];
  }

  /** The balances of a fixed fragment, a text and a fixed fragment. */
  lemma ElementBalance(open: Tag, s: string, close: Tag)
    ensures var ps := [Fixed(open), Inline(s), Fixed(close)];
      SectionBalance(ps) == SectionDelta(Fixed(open)) + SectionDelta(Fixed(close))
      && ListBalance(ps) == ListDelta(Fixed(open)) + ListDelta(Fixed(close))
  {
    SingleBalance(Fixed(open));
    SingleBalance(Inline(s));
    SingleBalance(Fixed(close));
    BalanceAppend([Fixed(open)], [Inline(s)]);
    BalanceAppend([Fixed(open), Inline(s)], [Fixed(close)]);
    assert [Fixed(open)] + [Inline(s)] == [Fixed(open), Inline(s)];
    assert [Fixed(open), Inline(s)] + [Fixed(close)] == [Fixed(open), Inline(s), Fixed(close)];
  }

  lemma FenceBalance(f: Flags, line: string)
    requires IsFence(line)
    ensures var e := FenceStep(f, line);
      SectionBalance(e.pieces) == 0
      && ListBalance(e.pieces) == Bit(e.next.inList) - Bit(f.inList)
  {
    var p := Fixed(if line == "```c" then CodeOpen else SmallCodeOpen);
    WhenBalance(f.inList, ListClose);
    WhenBalance(f.inCode, CodeClose);
    assert [p][1..] == [];
    assert [Fixed(PreOpen)][1..] == [];
    assert [Fixed(PreClose)][1..] == [];
    BalanceAppend(CloseList(f), [p]);
    BalanceAppend(CloseList(f), [Fixed(PreOpen)]);
    BalanceAppend(When(f.inCode, CodeClose), [Fixed(PreClose)]);
  }

  lemma SectionStepBalance(f: Flags, line: string, open: Tag, close: Tag)
    requires |line| >= 2 && SectionDelta(Fixed(open)) == 1 && SectionDelta(Fixed(close)) == 0
    requires ListDelta(Fixed(open)) == 0 && ListDelta(Fixed(close)) == 0
    ensures var e := SectionStep(f, line, open, close);
      SectionBalance(e.pieces) == 1 - Bit(f.inSection)
      && ListBalance(e.pieces) == - Bit(f.inList)
  {
    var a := CloseList(f);
    var b := When(f.inSection, SectionClose);
    var c := [Fixed(Separator)];
    var d := [Fixed(open), Inline(line[2..]), Fixed(close)];
    WhenBalance(f.inList, ListClose);
    WhenBalance(f.inSection, SectionClose);
    ElementBalance(open, line[2..], close);
    assert c[1..] == [];
    assert c + d == [Fixed(Separator), Fixed(open), Inline(line[2..]), Fixed(close)];
    BalanceAppend(a, b);
    BalanceAppend(c, d);
    BalanceAppend(a + b, c + d);
  }

  /** A list-closing prefix followed by an element. */
  lemma ClosedElementBalance(f: Flags, open: Tag, s: string, close: Tag)
    requires SectionDelta(Fixed(open)) == 0 && SectionDelta(Fixed(close)) == 0
    requires ListDelta(Fixed(open)) == 0 && ListDelta(Fixed(close)) == 0
    ensures var ps := CloseList(f) + [Fixed(open), Inline(s), Fixed(close)];
      SectionBalance(ps) == 0 && ListBalance(ps) == - Bit(f.inList)
  {
    WhenBalance(f.inList, ListClose);
    ElementBalance(open, s, close);
    BalanceAppend(CloseList(f), [Fixed(open), Inline(s), Fixed(close)]);
  }

  /** The balance claim of `NextBalance` for the step `e` from `f`. */
  predicate Balanced(f: Flags, e: Emit) {
    SectionBalance(e.pieces) == Bit(e.next.inSection) - Bit(f.inSection)
    && ListBalance(e.pieces) == Bit(e.next.inList) - Bit(f.inList)
  }

  lemma ElementLineBalance(f: Flags, line: string)
    requires !StartsWith(line, "# ") && !StartsWith(line, "## ")
    requires StartsWith(line, "### ") || StartsWith(line, "> ") || (!StartsWith(line, "- ") && line != "")
    ensures Balanced(f, TextStep(f, line))
  {
    if StartsWith(line, "### ") {
      ClosedElementBalance(f, H3Open, line[3..], H3Close);
    } else if StartsWith(line, "> ") {
      ClosedElementBalance(f, NoteOpen, line[2..], NoteClose);
    } else {
      ClosedElementBalance(f, ParaOpen, line, ParaClose);
    }
  }

  lemma ItemLineBalance(f: Flags, line: string)
    requires StartsWith(line, "- ") && !StartsWith(line, "# ") && !StartsWith(line, "## ")
    requires !StartsWith(line, "### ") && !StartsWith(line, "> ")
    ensures Balanced(f, TextStep(f, line))
  {
    WhenBalance(!f.inList, ListOpen);
    ElementBalance(ItemOpen, line[2..], ItemClose);
    BalanceAppend(When(!f.inList, ListOpen), [Fixed(ItemOpen), Inline(line[2..]), Fixed(ItemClose)]);
  }

  lemma TextBalance(f: Flags, line: string)
    ensures Balanced(f, TextStep(f, line))
  {
    if StartsWith(line, "# ") {
      SectionStepBalance(f, line, SectionH1, H1Close);
    } else if StartsWith(line, "## ") {
      SectionStepBalance(f, line, SectionH2, H2Close);
    } else if StartsWith(line, "### ") || StartsWith(line, "> ") {
      ElementLineBalance(f, line);
    } else if StartsWith(line, "- ") {
      ItemLineBalance(f, line);
    } else if line == "" {
      WhenBalance(f.inList, ListClose);
    } else {
      ElementLineBalance(f, line);
    }
  }

  lemma RawBalance(f: Flags, line: string)
    requires f.inCode || f.inPre
    ensures SectionBalance(RawStep(f, line).pieces) == 0 && ListBalance(RawStep(f, line).pieces) == 0
  {
    var t := if f.inCode then Escaped(line) else Verbatim(line);
    SingleBalance(t);
    SingleBalance(Fixed(Newline));
    BalanceAppend([t], [Fixed(Newline)]);
    assert [t] + [Fixed(Newline)] == RawStep(f, line).pieces;
  }

  /** Each line changes the number of open sections and open lists by
      exactly what it does to the two flags. */
  lemma NextBalance(f: Flags, line: string)
    ensures var e := Next(f, line);
      SectionBalance(e.pieces) == Bit(e.next.inSection) - Bit(f.inSection)
      && ListBalance(e.pieces) == Bit(e.next.inList) - Bit(f.inList)
  {
    if IsFence(line) {
      FenceBalance(f, line);
    } else if f.inCode || f.inPre {
      RawBalance(f, line);
    } else {
      TextBalance(f, line);
    }
  }

  /** After any prefix of the document, at most one section and at most
      one list are open, and exactly when the flags say so: sections and
      lists never nest. */
  lemma {:induction false} RunBalance(lines: seq<string>)
    ensures var e := Run(Start, lines);
      SectionBalance(e.pieces) == Bit(e.next.inSection)
      && ListBalance(e.pieces) == Bit(e.next.inList)
    decreases |lines|
  {
    if lines != [] {
      var init := lines[..|lines| - 1];
      RunBalance(init);
      var e := Run(Start, init);
      NextBalance(e.next, lines[|lines| - 1]);
      BalanceAppend(e.pieces, Next(e.next, lines[|lines| - 1]).pieces);
    }
  }

  lemma ClosingBalance(f: Flags)
    ensures SectionBalance(Closing(f)) == - Bit(f.inSection)
    ensures ListBalance(Closing(f)) == - Bit(f.inList)
  {
    var a, b := When(f.inCode, CodePreClose), When(f.inPre, PreClose);
    var c, d := When(f.inList, ListClose), When(f.inSection, FinalSectionClose);
    WhenBalance(f.inCode, CodePreClose);
    WhenBalance(f.inPre, PreClose);
    WhenBalance(f.inList, ListClose);
    WhenBalance(f.inSection, FinalSectionClose);
    BalanceAppend(a, b);
    BalanceAppend(a + b, c);
    BalanceAppend(a + b + c, d);
  }

  /** In the finished document every section and every list is closed. */
  lemma DocumentBalanced(lines: seq<string>)
    ensures SectionBalance(Document(lines)) == 0 && ListBalance(Document(lines)) == 0
  {
    var e := Run(Start, lines);
    RunBalance(lines);
    ClosingBalance(e.next);
    BalanceAppend(e.pieces, Closing(e.next));
  }
}
