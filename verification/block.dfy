/** The block transducer of the slide generator: the line loop of `main`.

    Each input line is classified (fences first, then the code and pre
    states, then the heading, note and list prefixes, the empty line, and
    the paragraph fallback) and produces a short run of output pieces while
    four flags track the open section, list, code block and pre block. At
    the end of the document whatever is still open is closed.

    The output is described at two levels: `Next` says which pieces a line
    produces (fixed markup fragments, and text taken from the line together
    with how it is transformed), which is what the properties about
    structure are stated on; the `Transducer` class writes the strings
    those pieces stand for, one write at a time. */
module Block {
  import opened Escape
  import opened Inline

  /** Every fixed fragment the transducer writes. */
  datatype Tag =
    | ListOpen | ListClose | ItemOpen | ItemClose
    | CodeOpen | SmallCodeOpen | CodePreClose | CodeClose | PreOpen | PreClose
    | Newline | Separator | SectionClose | FinalSectionClose
    | SectionH1 | H1Close | SectionH2 | H2Close | H3Open | H3Close
    | NoteOpen | NoteClose | ParaOpen | ParaClose

  function TagText(t: Tag): (r: string)
    ensures r != []
  {
    match t
    case ListOpen => "  <ul>\n"
    case ListClose => "  </ul>\n"
    case ItemOpen => "    <li>"
    case ItemClose => "</li>\n"
    case CodeOpen => "<pre><code class=\"language-c\">\n"
    case SmallCodeOpen => "<pre><code class=\"language-c\" style=\"font-size:10px\">\n"
    case CodePreClose => "</code></pre>\n"
    case CodeClose => "</code>\n"
    case PreOpen => "<pre>\n"
    case PreClose => "</pre>\n"
    case Newline => "\n"
    case Separator => "<!---------------------------------------------------------------------------------------------->\n"
    case SectionClose => "</section>\n"
    case FinalSectionClose => "</section>\n\n\n"
    case SectionH1 => "<section>\n  <h1>"
    case H1Close => "</h1>\n"
    case SectionH2 => "<section>\n  <h2>"
    case H2Close => "</h2>\n"
    case H3Open => "  <h3>"
    case H3Close => "</h3>\n"
    case NoteOpen => "  <div class=\"note\">"
    case NoteClose => "</div>\n"
    case ParaOpen => "  <p>"
    case ParaClose => "</p>\n"
  }

  /** A piece of output: a fixed fragment, or part of the line passed
      through the inline renderer, through the HTML escaper, or copied. */
  datatype Piece = Fixed(tag: Tag) | Inline(src: string) | Escaped(src: string) | Verbatim(src: string)

  /** The string a piece stands for. */
  function PieceText(p: Piece): string {
    match p
    case Fixed(t) => TagText(t)
    case Inline(s) => RenderInline(s)
    case Escaped(s) => EscapeHtml(s)
    case Verbatim(s) => s
  }

  /** The strings written for a sequence of pieces, one per piece. */
  function Texts(ps: seq<Piece>): seq<string> {
    seq(|ps|, i requires 0 <= i < |ps| => PieceText(ps[i]))
  }

  lemma TextsAppend(a: seq<Piece>, b: seq<Piece>)
    ensures Texts(a + b) == Texts(a) + Texts(b)
  {
    assert forall i :: 0 <= i < |a| ==> (a + b)[i] == a[i];
    assert forall i :: |a| <= i < |a| + |b| ==> (a + b)[i] == b[i - |a|];
  }

  /** Writing the pieces `a` and then `b` after `o`. */
  lemma WriteThen(o: seq<string>, a: seq<Piece>, b: seq<Piece>)
    ensures o + Texts(a) + Texts(b) == o + Texts(a + b)
  {
    TextsAppend(a, b);
  }

  /** The characters of a sequence of strings, in order. */
  function Concat(ss: seq<string>): string {
    if ss == [] then [] else ss[0] + Concat(ss[1..])
  }

  lemma {:induction false} ConcatAppend(a: seq<string>, b: seq<string>)
    ensures Concat(a + b) == Concat(a) + Concat(b)
  {
    if a == [] {
      assert a + b == b;
    } else {
      assert (a + b)[1..] == a[1..] + b;
      ConcatAppend(a[1..], b);
    }
  }

  /** The characters a sequence of pieces spells. */
  function Flatten(ps: seq<Piece>): string {
    Concat(Texts(ps))
  }

  /** The four flags of the line loop. */
  datatype Flags = Flags(inSection: bool, inList: bool, inCode: bool, inPre: bool)

  const Start := Flags(false, false, false, false)

  /** The list closes before any other block opens, so a list is never open
      inside a code or pre block. (A code and a pre block can be open
      together: a ```c line inside a ``` block opens one without closing
      the other.) */
  predicate Consistent(f: Flags) {
    f.inList ==> !f.inCode && !f.inPre
  }

  /** What one line does: the flags afterwards and the pieces written. */
  datatype Emit = Emit(next: Flags, pieces: seq<Piece>)

  predicate StartsWith(line: string, prefix: string) {
    |line| >= |prefix| && line[..|prefix|] == prefix
  }

  /** A fixed fragment written only when `c` holds. */
  function When(c: bool, t: Tag): seq<Piece> {
    if c then [Fixed(t)] else []
  }

  /** The pieces that close an open list (nothing when none is open). */
  function CloseList(f: Flags): seq<Piece> {
    When(f.inList, ListClose)
  }

  /** The three fence lines, matched exactly. */
  predicate IsFence(line: string) {
    line == "```c" || line == "```csmall" || line == "```"
  }

  /** A fence line. ```c and ```csmall toggle the one code flag between
      them, so either closes a block the other opened, and neither looks at
      the pre flag. ``` opens a pre block when neither block is open, and
      otherwise closes both. */
  function FenceStep(f: Flags, line: string): (e: Emit)
    requires IsFence(line)
    ensures e.next.inSection == f.inSection
    ensures e.next.inCode == (line != "```" && !f.inCode)
    ensures e.next.inPre == if line == "```" then !f.inPre && !f.inCode else f.inPre
    ensures Consistent(f) ==> !e.next.inList
  {
    if line != "```" then
      if !f.inCode then
        Emit(f.(inList := false, inCode := true),
             CloseList(f) + [Fixed(if line == "```c" then CodeOpen else SmallCodeOpen)])
      else
        Emit(f.(inCode := false), [Fixed(CodePreClose)])
    else if !f.inPre && !f.inCode then
      Emit(f.(inList := false, inPre := true), CloseList(f) + [Fixed(PreOpen)])
    else
      Emit(f.(inCode := false, inPre := false), When(f.inCode, CodeClose) + [Fixed(PreClose)])
  }

  /** A line inside a code block (escaped) or a pre block (copied). */
  function RawStep(f: Flags, line: string): (e: Emit)
    requires f.inCode || f.inPre
    ensures e.next == f
    ensures |e.pieces| == 2 && !e.pieces[0].Fixed? && e.pieces[0].src == line
    ensures e.pieces[1] == Fixed(Newline)
    ensures forall p :: p in e.pieces ==> !p.Inline?
  {
    Emit(f, [if f.inCode then Escaped(line) else Verbatim(line), Fixed(Newline)])
  }

  /** A `# ` or `## ` heading: closes the list and the open section, then
      opens a new section whose heading is the text from offset 2. */
  function SectionStep(f: Flags, line: string, open: Tag, close: Tag): (e: Emit)
    requires |line| >= 2
    ensures e.next.inSection && !e.next.inList
    ensures e.next.inCode == f.inCode && e.next.inPre == f.inPre
    ensures |e.pieces| >= 4 && e.pieces[|e.pieces| - 2] == Inline(line[2..])
    ensures Fixed(Separator) in e.pieces
  {
    Emit(f.(inList := false, inSection := true),
         CloseList(f) + When(f.inSection, SectionClose)
         + [Fixed(Separator), Fixed(open), Inline(line[2..]), Fixed(close)])
  }

  /** A line outside code and pre blocks, classified by its prefix. The
      `## ` heading is rendered from offset 2, so its text keeps a leading
      space; the `### ` heading is rendered from offset 3. */
  function TextStep(f: Flags, line: string): (e: Emit)
    ensures e.next.inCode == f.inCode && e.next.inPre == f.inPre
    ensures e.next.inList <==> StartsWith(line, "- ")
    ensures e.next.inSection <==> f.inSection || StartsWith(line, "# ") || StartsWith(line, "## ")
  {
    assert StartsWith(line, "- ") ==> line[0] == '-' by {
      if StartsWith(line, "- ") { assert line[..2][0] == line[0]; }
    }
    assert StartsWith(line, "# ") ==> line[0] == '#' by {
      if StartsWith(line, "# ") { assert line[..2][0] == line[0]; }
    }
    assert StartsWith(line, "## ") ==> line[0] == '#' by {
      if StartsWith(line, "## ") { assert line[..3][0] == line[0]; }
    }
    assert StartsWith(line, "### ") ==> line[0] == '#' by {
      if StartsWith(line, "### ") { assert line[..4][0] == line[0]; }
    }
    assert StartsWith(line, "> ") ==> line[0] == '>' by {
      if StartsWith(line, "> ") { assert line[..2][0] == line[0]; }
    }
    if StartsWith(line, "# ") then SectionStep(f, line, SectionH1, H1Close)
    else if StartsWith(line, "## ") then SectionStep(f, line, SectionH2, H2Close)
    else if StartsWith(line, "### ") then
      Emit(f.(inList := false), CloseList(f) + [Fixed(H3Open), Inline(line[3..]), Fixed(H3Close)])
    else if StartsWith(line, "> ") then
      Emit(f.(inList := false), CloseList(f) + [Fixed(NoteOpen), Inline(line[2..]), Fixed(NoteClose)])
    else if StartsWith(line, "- ") then
      Emit(f.(inList := true),
           When(!f.inList, ListOpen) + [Fixed(ItemOpen), Inline(line[2..]), Fixed(ItemClose)])
    else if line == "" then
      Emit(f.(inList := false), CloseList(f))
    else
      Emit(f.(inList := false), CloseList(f) + [Fixed(ParaOpen), Inline(line), Fixed(ParaClose)])
  }

  /** One pass of the line loop of `main`: fences first, then the code and
      pre states, then the prefixes. */
  function Next(f: Flags, line: string): (e: Emit)
    ensures f.inSection ==> e.next.inSection
    ensures !IsFence(line) && (f.inCode || f.inPre) ==> e.next == f
    ensures e.next.inList && !f.inList ==> StartsWith(line, "- ")
  {
    if IsFence(line) then FenceStep(f, line)
    else if f.inCode || f.inPre then RawStep(f, line)
    else TextStep(f, line)
  }

  /** The closures written after the last line. */
  function Closing(f: Flags): (r: seq<Piece>)
    ensures r == [] <==> f == Start
    ensures |r| <= 4 && forall p :: p in r ==> p.Fixed?
  {
    When(f.inCode, CodePreClose) + When(f.inPre, PreClose)
    + When(f.inList, ListClose) + When(f.inSection, FinalSectionClose)
  }

  /** The line loop over `lines` from the flags `f`. */
  function Run(f: Flags, lines: seq<string>): (r: Emit)
    ensures forall k | 0 <= k <= |lines| :: Run(f, lines[..k]).pieces <= r.pieces
  {
    if lines == [] then Emit(f, [])
    else
      var init := lines[..|lines| - 1];
      var before := Run(f, init);
      var last := Next(before.next, lines[|lines| - 1]);
      assert forall k | 0 <= k < |lines| :: lines[..k] == init[..k];
      assert lines[..|lines|] == lines;
      Emit(last.next, before.pieces + last.pieces)
  }

  /** Everything the transducer writes for a document (between the fixed
      prologue and epilogue, which are not part of this model). */
  function Document(lines: seq<string>): (r: seq<Piece>)
    ensures Run(Start, lines).pieces <= r
    ensures |r| <= |Run(Start, lines).pieces| + 4
    ensures forall i | |Run(Start, lines).pieces| <= i < |r| :: r[i].Fixed?
  {
    var e := Run(Start, lines);
    e.pieces + Closing(e.next)
  }

  /** The text of the output file between prologue and epilogue. It starts
      with what the line loop wrote. */
  function Html(lines: seq<string>): (r: string)
    ensures Flatten(Run(Start, lines).pieces) <= r
  {
    var e := Run(Start, lines);
    TextsAppend(e.pieces, Closing(e.next));
    ConcatAppend(Texts(e.pieces), Texts(Closing(e.next)));
    Flatten(Document(lines))
  }

  /** The state of the line loop: its four flags and the output file. The
      file is modelled as the sequence of strings written to it, in order;
      its content is their concatenation. */
  class Transducer {
    var inSection: bool
    var inList: bool
    var inCode: bool
    var inPre: bool
    var out: seq<string>

    function State(): Flags
      reads this
    {
      Flags(inSection, inList, inCode, inPre)
    }

    predicate Valid()
      reads this
    {
      Consistent(State())
    }

    constructor ()
      ensures Valid() && State() == Start && out == []
    {
      inSection, inList, inCode, inPre := false, false, false, false;
      out := [];
    }

    /** Writes one piece: `fputs` of a fixed fragment or of the line,
        `render_inline` or `escape_html` of part of the line. */
    method Put(p: Piece)
      modifies this`out
      ensures out == old(out) + Texts([p])
    {
      var w: string;
      match p {
        case Fixed(t) => w := TagText(t);
        case Inline(s) => w := RenderLine(s);
        case Escaped(s) => w := EscapeLine(s);
        case Verbatim(s) => w := s;
      }
      out := out + [w];
    }

    /** Writes the fragment `t` when `c` holds. */
    method PutWhen(c: bool, t: Tag)
      modifies this`out
      ensures out == old(out) + Texts(When(c, t))
    {
      if c {
        Put(Fixed(t));
      } else {
        assert out + [] == out;
      }
    }

    /** The element pattern shared by headings, notes, items and
        paragraphs: an opening fragment, the rendered text, a closing one. */
    method PutElement(open: Tag, s: string, close: Tag)
      modifies this`out
      ensures out == old(out) + Texts([Fixed(open), Inline(s), Fixed(close)])
    {
      Put(Fixed(open));
      Put(Inline(s));
      WriteThen(old(out), [Fixed(open)], [Inline(s)]);
      Put(Fixed(close));
      WriteThen(old(out), [Fixed(open), Inline(s)], [Fixed(close)]);
      assert [Fixed(open), Inline(s)] + [Fixed(close)] == [Fixed(open), Inline(s), Fixed(close)];
    }

    /** Closes an open list. */
    method CloseOpenList()
      modifies this`out, this`inList
      ensures out == old(out) + Texts(CloseList(old(State())))
      ensures !inList
    {
      PutWhen(inList, ListClose);
      inList := false;
    }

    /** One pass of the line loop. */
    method Step(line: string)
      requires Valid()
      modifies this
      ensures Valid()
      ensures State() == Next(old(State()), line).next
      ensures out == old(out) + Texts(Next(old(State()), line).pieces)
    {
      if line == "```c" || line == "```csmall" || line == "```" {
        StepFence(line);
      } else if inCode || inPre {
        StepRaw(line);
      } else {
        StepText(line);
      }
    }

    method StepFence(line: string)
      requires Valid() && IsFence(line)
      modifies this
      ensures Valid()
      ensures State() == FenceStep(old(State()), line).next
      ensures out == old(out) + Texts(FenceStep(old(State()), line).pieces)
    {
      ghost var f := State();
      if line == "```c" || line == "```csmall" {
        if !inCode {
          CloseOpenList();
          var open := Fixed(if line == "```c" then CodeOpen else SmallCodeOpen);
          Put(open);
          WriteThen(old(out), CloseList(f), [open]);
          inCode := true;
        } else {
          Put(Fixed(CodePreClose));
          inCode := false;
        }
      } else if !inPre && !inCode {
        CloseOpenList();
        Put(Fixed(PreOpen));
        WriteThen(old(out), CloseList(f), [Fixed(PreOpen)]);
        inPre := true;
      } else {
        PutWhen(inCode, CodeClose);
        Put(Fixed(PreClose));
        WriteThen(old(out), When(f.inCode, CodeClose), [Fixed(PreClose)]);
        inPre := false;
        inCode := false;
      }
    }

    method StepRaw(line: string)
      requires Valid() && (inCode || inPre)
      modifies this
      ensures Valid()
      ensures State() == RawStep(old(State()), line).next
      ensures out == old(out) + Texts(RawStep(old(State()), line).pieces)
    {
      var p := if inCode then Escaped(line) else Verbatim(line);
      Put(p);
      Put(Fixed(Newline));
      WriteThen(old(out), [p], [Fixed(Newline)]);
    }

    method StepSection(line: string, open: Tag, close: Tag)
      requires Valid() && |line| >= 2
      modifies this
      ensures Valid()
      ensures State() == SectionStep(old(State()), line, open, close).next
      ensures out == old(out) + Texts(SectionStep(old(State()), line, open, close).pieces)
    {
      ghost var f := State();
      CloseOpenList();
      PutWhen(inSection, SectionClose);
      WriteThen(old(out), CloseList(f), When(f.inSection, SectionClose));
      ghost var a := CloseList(f) + When(f.inSection, SectionClose);
      Put(Fixed(Separator));
      WriteThen(old(out), a, [Fixed(Separator)]);
      PutElement(open, line[2..], close);
      WriteThen(old(out), a + [Fixed(Separator)], [Fixed(open), Inline(line[2..]), Fixed(close)]);
      assert a + [Fixed(Separator)] + [Fixed(open), Inline(line[2..]), Fixed(close)]
          == a + [Fixed(Separator), Fixed(open), Inline(line[2..]), Fixed(close)];
      inSection := true;
    }

    method StepText(line: string)
      requires Valid() && !inCode && !inPre
      modifies this
      ensures Valid()
      ensures State() == TextStep(old(State()), line).next
      ensures out == old(out) + Texts(TextStep(old(State()), line).pieces)
    {
      ghost var f := State();
      if StartsWith(line, "# ") {
        StepSection(line, SectionH1, H1Close);
      } else if StartsWith(line, "## ") {
        StepSection(line, SectionH2, H2Close);
      } else if StartsWith(line, "### ") {
        CloseOpenList();
        PutElement(H3Open, line[3..], H3Close);
        WriteThen(old(out), CloseList(f), [Fixed(H3Open), Inline(line[3..]), Fixed(H3Close)]);
      } else if StartsWith(line, "> ") {
        CloseOpenList();
        PutElement(NoteOpen, line[2..], NoteClose);
        WriteThen(old(out), CloseList(f), [Fixed(NoteOpen), Inline(line[2..]), Fixed(NoteClose)]);
      } else if StartsWith(line, "- ") {
        PutWhen(!inList, ListOpen);
        inList := true;
        PutElement(ItemOpen, line[2..], ItemClose);
        WriteThen(old(out), When(!f.inList, ListOpen), [Fixed(ItemOpen), Inline(line[2..]), Fixed(ItemClose)]);
      } else if line == "" {
        CloseOpenList();
      } else {
        CloseOpenList();
        PutElement(ParaOpen, line, ParaClose);
        WriteThen(old(out), CloseList(f), [Fixed(ParaOpen), Inline(line), Fixed(ParaClose)]);
      }
    }

    /** The closures after the loop, innermost first: code, pre, list,
        section. The flags are not touched. */
    method Finish()
      modifies this`out
      ensures out == old(out) + Texts(Closing(State()))
    {
      ghost var f := State();
      ghost var a, b := When(f.inCode, CodePreClose), When(f.inPre, PreClose);
      ghost var c, d := When(f.inList, ListClose), When(f.inSection, FinalSectionClose);
      PutWhen(inCode, CodePreClose);
      PutWhen(inPre, PreClose);
      WriteThen(old(out), a, b);
      PutWhen(inList, ListClose);
      WriteThen(old(out), a + b, c);
      PutWhen(inSection, FinalSectionClose);
      WriteThen(old(out), a + b + c, d);
    }
  }

  /** The body of `main` between the prologue and the epilogue: every line
      in turn through the loop, then the closures; the result is the text
      of the output file. */
  method Convert(lines: seq<string>) returns (html: string)
    ensures html == Html(lines)
  {
    var t := new Transducer();
    var i := 0;
    while i < |lines|
      invariant 0 <= i <= |lines|
      invariant t.Valid()
      invariant t.State() == Run(Start, lines[..i]).next
      invariant t.out == Texts(Run(Start, lines[..i]).pieces)
    {
      assert lines[..i + 1][..i] == lines[..i];
      ghost var before := Run(Start, lines[..i]);
      t.Step(lines[i]);
      TextsAppend(before.pieces, Next(before.next, lines[i]).pieces);
      i := i + 1;
    }
    assert lines[..i] == lines;
    ghost var body := Run(Start, lines).pieces;
    t.Finish();
    TextsAppend(body, Closing(Run(Start, lines).next));
    html := Concat(t.out);
  }
}
