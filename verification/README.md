# slides: a verified model of the markdown-to-slides transducer

`slides.c` turns a line-oriented markdown-like document into an HTML slide
deck. It reads one input file, writes a fixed prologue, processes each line,
closes whatever is still open, and writes a fixed epilogue. This project
models the part between prologue and epilogue, plus the small helpers the
program uses:

- **HTML escaper** (`escape.dfy`, module `Escape`). `escape_html` maps `&`,
  `<` and `>` to their entities and copies every other character. It is
  specified by the function `EscapeHtml` and implemented by the loop method
  `EscapeLine`. The inverse decoder `Unescape` is its partner.
- **Inline renderer** (`inline.dfy`, module `Inline`). `render_inline` reads
  a line left to right as a flat sequence of spans (`Parse`): `**…**`, then
  `*…*`, then `` `…` ``, then single characters. Each span is rendered by
  `RenderSpan`. A span with no closing delimiter runs to the end of the line
  and still gets its closing tag. `Unparse` writes spans back as source text
  and is the partner of `Parse`. `RenderLine` is the loop of the source,
  proved to compute `RenderInline`.
- **Block transducer** (`block.dfy`, module `Block`). This is the line loop
  of `main`.
  - `Next(flags, line)` gives the flags after a line and the output
    *pieces* the line produces. A piece is a fixed fragment (`Tag`), or part
    of the line sent through the inline renderer, through the escaper, or
    copied as is.
  - `Run` folds `Next` over the lines. `Document` appends the end-of-document
    closures, and `Html` is the text of all pieces.
  - The class `Transducer` holds the four flags (`inSection`, `inList`,
    `inCode`, `inPre`) and the output file, modelled as a sequence of
    strings with one entry per piece, in order. `Step` and `Finish` update them.
  - `Convert` drives a `Transducer` over the lines and is proved to produce
    `Html(lines)`.
- **Block properties** (`block_props.dfy`, module `BlockProps`). These cover:
  - the flag invariant
  - code and pre lines
  - fence interactions
  - heading offsets
  - grouping of list items
  - balance of section and list fragments in the finished document
- **Output name** (`output_name.dfy`, module `OutputName`). `make_output_name`
  replaces everything from the last `.` of the path with `.html`, or appends
  `.html` when there is no `.`.
- **Byte order mark** (`bom.dfy`, module `Bom`). `skip_utf8_bom` decides where
  line reading starts in the file's bytes.

Section and list balance is counted over pieces, not over characters. The
inline renderer does not escape, so a user line may itself contain the text
`<section>`, and a count over characters would be false.

### Behaviours of the code worth knowing

- `render_inline` copies every character outside and inside spans raw: no
  entity escaping happens on heading, note, item or paragraph text.
  `RenderPlain` states this: `&`, `<` and `>` pass through unchanged.
- `in_code` and `in_pre` can both be set. A ```` ```c ```` (or
  ```` ```csmall ````) line inside a ```` ``` ```` block sets `in_code`
  without clearing `in_pre`. Both flags then stay set until a ```` ``` ````
  clears both, or a ```` ```c ````/```` ```csmall ```` clears `in_code`
  alone (writing `</code></pre>`) and leaves `in_pre` set.
  - `CodeInsidePre`, `CodeInPreClosed` and `NestedFences` state this.
  - For ```` ``` ````, ```` ```c ````, ```` ``` ```` the page has two
    `<pre>` openings and one `</pre>`.
  - The model's invariant (`Consistent`) therefore only excludes an open
    list inside either block.
- The flags are not reset at the end of the document. The code only writes
  the closing fragments, so `Finish` leaves the flags as they are.

## Model

| member | source | states |
|---|---|---|
| Escape.EscapeHtml | slides.c:57-66 | each character becomes one to five characters (`&amp;` is the longest entity), so the output is never shorter than the input and at most five times as long |
| Escape.EscapeChar | slides.c:59-64 | any character other than `&`, `<`, `>` is written as itself, and no escape contains a raw angle bracket |
| Escape.EscapeAppend | slides.c:58-65 | escaping a concatenation is the concatenation of the escapes (the pass is character by character) |
| Escape.EscapeIdentity | slides.c:63 | a string without `&`, `<`, `>` is copied unchanged |
| Escape.EscapeNoAngle | slides.c:60-62 | escaped text contains no raw `<` or `>` |
| Escape.UnescapeChar | slides.c:60-63 | decoding undoes the escape of any one character, whatever text follows it |
| Escape.EscapeRoundTrip | slides.c:57-66 | decoding the entities of escaped text gives the original text back, so escaping loses nothing |
| Escape.EscapeSnoc | slides.c:58-65 | escaping one more character appends exactly that character's escape |
| Escape.EscapeLine | slides.c:57-66 | the `for`/`switch` loop writes exactly `EscapeHtml` of the line |
| Inline.StrongEnd | slides.c:30 | the content of a `**` span stops at the first `**` from its start, or at the end of the line, and holds no `**` before that |
| Inline.CharEnd | slides.c:35-50 | the content of a `*` or backtick span stops at the first matching delimiter, or at the end of the line, and holds no such delimiter |
| Inline.StrongSpan | slides.c:27-34 | a `**` span ends strictly after its start, within the line (the scan always advances) |
| Inline.DelimSpan | slides.c:35-50 | a `*` or backtick span ends strictly after its start, within the line |
| Inline.NextSpan | slides.c:26-54 | every pass of the scan consumes at least one character and stays within the line, so the scan terminates |
| Inline.NextSpanSound | slides.c:26-54 | the span read at a position has exactly the source text it consumed, is well formed, and is unclosed only when it runs to the end of the line |
| Inline.StrongSpanSound | slides.c:27-34 | the same for a `**` span: its content holds no `**` and, when closed, does not end in `*` |
| Inline.DelimSpanSound | slides.c:35-50 | the same for a `*` or backtick span: its content holds no delimiter of its kind, and a closed emphasis is not empty |
| Inline.ParseFromUnparse | slides.c:26-54 | writing back the spans read from a position gives the rest of the line exactly |
| Inline.ParseFromWellFormed | slides.c:26-54 | every span read is well formed and only the last one may be unclosed |
| Inline.ParseRoundTrip | slides.c:25-55 | the read is lossless and flat: writing the spans back out gives the line, so every character that is not a consumed delimiter reaches the output in order, tags never nest, and only the last span may lack its closing delimiter |
| Inline.ParseShift | slides.c:26 | the scan only looks forward: the spans read from a position do not depend on what precedes it |
| Inline.ParseFrom | slides.c:26-54 | the scan from a position reads at most one span per remaining character, and reads nothing exactly when it starts at the end of the line |
| Inline.StrongClosedNext | slides.c:27-34 | `**x**` is read back as the closed `**` span `x`, consuming `x` and both delimiters, when `x` holds no `**` and does not end in `*` |
| Inline.StrongOpenNext | slides.c:30-33 | an unterminated `**x` is read as one unclosed span running to the end of the line |
| Inline.EmClosedNext | slides.c:35-42 | `*x*` is read back as the closed emphasis `x` for a non-empty `x` without `*` |
| Inline.EmOpenNext | slides.c:38-41 | an unterminated `*x` is read as one unclosed emphasis running to the end of the line |
| Inline.CodeClosedNext | slides.c:43-50 | `` `x` `` is read back as the closed code span `x` for `x` without a backtick |
| Inline.CodeOpenNext | slides.c:46-49 | an unterminated `` `x `` is read as one unclosed code span running to the end of the line |
| Inline.UnparseNext | slides.c:26-54 | the source text of any well-formed span is read back as that span, whatever follows when it is closed |
| Inline.ParseUnique | slides.c:25-55 | the reading is the only flat, well-formed one: any such span list whose source text is the line is what the scan reads from it |
| Inline.RenderSpan | slides.c:27-53 | an ordinary character is written as itself, a span as text starting with `<` and ending with `>`, and never shorter than its source text |
| Inline.RenderSpans | slides.c:26-54 | the rendering of spans is never shorter than their source text |
| Inline.RenderSingle | slides.c:26-54 | a line read as one span renders as that span alone |
| Inline.RenderInline | slides.c:25-55 | rendering never shortens a line (delimiters are replaced by longer tags, every other character is kept) |
| Inline.RenderPlain | slides.c:51-52 | a line with no `*` and no backtick renders as itself, with `&`, `<`, `>` not escaped |
| Inline.RenderCons | slides.c:51-52 | an ordinary leading character is copied and the rest of the line renders on its own |
| Inline.RenderStrong | slides.c:27-34 | `**x**` followed by anything renders as `<strong>x</strong>` followed by the rest rendered, when `x` holds no `**` and does not end in `*` |
| Inline.RenderStrongUnterminated | slides.c:30-33 | an unterminated `**x` takes the rest of the line and still gets `</strong>` |
| Inline.RenderEm | slides.c:35-42 | `*x*` followed by anything renders as `<em>x</em>` followed by the rest rendered, for a non-empty `x` without `*` |
| Inline.RenderEmUnterminated | slides.c:38-41 | an unterminated `*x` takes the rest of the line and still gets `</em>` |
| Inline.RenderCode | slides.c:43-50 | `` `x` `` followed by anything renders as `<code>x</code>` followed by the rest rendered, for `x` without a backtick |
| Inline.RenderCodeUnterminated | slides.c:46-49 | an unterminated `` `x `` takes the rest of the line and still gets `</code>` |
| Inline.RenderFromStep | slides.c:26-54 | rendering from a position writes the span there, then renders on from its end |
| Inline.CopyToDoubleStar | slides.c:30-31 | the copy loop of the `**` branch copies exactly the span content and stops where `StrongEnd` says |
| Inline.CopyToChar | slides.c:38-47 | the copy loops of the `*` and backtick branches copy exactly the span content and stop where `CharEnd` says |
| Inline.StrongAt | slides.c:27-34 | the `**` branch writes the rendering of the span and resumes after its closing `**` when there is one, else at the end |
| Inline.DelimAt | slides.c:35-50 | the `*` and backtick branches write the rendering of the span and resume after its closing delimiter when there is one |
| Inline.SpanAt | slides.c:27-53 | one pass of the loop writes the next span's rendering and resumes where that span ends |
| Inline.RenderLine | slides.c:25-55 | the loop of `render_inline` writes exactly `RenderInline` of the line |
| OutputName.LastDotBefore | slides.c:70 | the position found holds a `.` and no later position in range does, or there is no `.` at all (`strrchr`) |
| OutputName.OutputName | slides.c:68-75 | the name ends in `.html`, and its stem is the path up to its last `.`, or the whole path when the path has no `.` |
| OutputName.OutputNameIdempotent | slides.c:68-75 | renaming a renamed path changes nothing |
| OutputName.MakeOutputName | slides.c:68-75 | the copy, the `strrchr` scan and the overwrite or append compute `OutputName` |
| Bom.StartOffset | slides.c:12-23 | reading starts at offset 3 exactly when the file has at least three bytes and they are `EF BB BF`, otherwise at 0, including for files shorter than three bytes |
| Bom.SkipsMark | slides.c:20-22 | a file starting with the mark is read from just after it, with nothing else dropped |
| Bom.KeepsUnmarked | slides.c:15-21 | a file not starting with the mark is read whole (the stream is rewound) |
| Block.TagText | slides.c:101-263 | every fixed fragment the converter writes is non-empty |
| Block.FenceStep | slides.c:110-161 | a fence line keeps the section flag; the code flag ends set exactly for ```` ```c ````/```` ```csmall ```` outside a code block; the pre flag flips for ```` ``` ```` outside a code block, is cleared by ```` ``` ```` inside one and is kept by the code fences; a consistent state ends with no list open |
| Block.RawStep | slides.c:163-173 | in a code or pre block a line keeps every flag and writes exactly two pieces: the line itself (escaped or copied, never rendered) and a newline |
| Block.SectionStep | slides.c:176-204 | a `# ` or `## ` heading leaves a section open and no list open, keeps the code and pre flags, writes the separator, and renders the heading text from offset 2 as its last piece before the closing tag |
| Block.TextStep | slides.c:175-250 | outside code and pre a line keeps the code and pre flags, leaves a list open exactly when it starts with `- `, and leaves a section open exactly when one was open or it starts with `# ` or `## ` |
| Block.Next | slides.c:106-251 | an open section stays open, a non-fence line inside code or pre changes no flag, and only a `- ` line opens a list |
| Block.Closing | slides.c:253-263 | the end writes nothing exactly when every flag is clear, and otherwise at most four fixed closing fragments |
| Block.Run | slides.c:106-251 | output is only appended: the pieces of every prefix of the lines are a prefix of the pieces of all of them |
| Block.Document | slides.c:101-263 | the document is the pieces of the line loop followed by at most four fixed closing fragments |
| Block.Html | slides.c:101-263 | the text of the line loop is a prefix of the page |
| Block.TextsAppend | slides.c:106-251 | writing two runs of pieces one after the other writes the strings of both in order |
| Block.WriteThen | slides.c:106-251 | appending the strings of one run of pieces and then another equals appending the strings of the combined run |
| Block.Transducer.constructor | slides.c:102-105 | the loop starts with all four flags cleared and nothing written |
| Block.Transducer.Put | slides.c:163-172 | one write appends the text of one piece: a fixed fragment, the rendered, escaped or copied text |
| Block.Transducer.PutWhen | slides.c:112-115 | a fixed fragment is written exactly when its condition holds |
| Block.Transducer.PutElement | slides.c:230-232 | an opening fragment, the rendered text and a closing fragment are written in that order |
| Block.Transducer.CloseOpenList | slides.c:112-115 | `  </ul>` is written exactly when a list is open, and the list flag ends cleared |
| Block.Transducer.Step | slides.c:106-251 | one pass of the loop keeps the flag invariant, moves the flags as `Next` says, and appends the text of `Next`'s pieces |
| Block.Transducer.StepFence | slides.c:110-161 | the three fence lines: ```` ```c ```` and ```` ```csmall ```` open a code block (closing a list) or close the open one whichever opened it, and ```` ``` ```` opens a pre block or closes code and pre together |
| Block.Transducer.StepRaw | slides.c:163-173 | inside a code block the line is escaped, inside a pre block it is copied, each followed by a newline, and the flags do not change |
| Block.Transducer.StepSection | slides.c:176-204 | a `# ` or `## ` heading closes the list and the open section, writes the separator and a new section whose heading is rendered from offset 2, and sets the section flag |
| Block.Transducer.StepText | slides.c:175-250 | the prefix cases in source order: headings, `### ` from offset 3, `> ` notes, `- ` items opening a list only when none is open, the empty line closing the list, and the paragraph fallback |
| Block.Transducer.Finish | slides.c:253-263 | the end closures are written in order code, pre, list, section, each only if its flag is set |
| Block.Convert | slides.c:101-263 | the whole line loop followed by the closures produces exactly `Html(lines)` |
| BlockProps.BalanceAppend | slides.c:106-263 | the section and list balances of concatenated output add up |
| BlockProps.NextConsistent | slides.c:106-251 | no line leaves a list open inside a code or pre block |
| BlockProps.RunConsistent | slides.c:102-251 | the invariant `in_list` implies neither `in_code` nor `in_pre` holds after any number of lines |
| BlockProps.RunKeepsSection | slides.c:176-204 | once a section is open the section flag never returns to false |
| BlockProps.CodeLine | slides.c:163-167 | in a code block every non-fence line, whatever its prefix, writes its escape and a newline, contains no raw angle bracket, and changes no flag |
| BlockProps.PreLine | slides.c:169-173 | in a pre block (no code block) every non-fence line is written verbatim with a newline and changes no flag |
| BlockProps.CodeFencesShareFlag | slides.c:110-141 | a code block opened by either ```` ```c ```` or ```` ```csmall ```` is closed by either, with `</code></pre>` |
| BlockProps.CodeInsidePre | slides.c:110-118 | ```` ```c ```` inside a pre block opens a code block and leaves the pre flag set, so both flags are true |
| BlockProps.CodeInPreClosed | slides.c:119-139 | ```` ```c ```` or ```` ```csmall ```` with both flags set writes `</code></pre>`, clears only the code flag and leaves the pre flag and the section flag as they were |
| BlockProps.PlainFenceCloses | slides.c:144-161 | ```` ``` ```` with a code or pre block open writes `</code>` only if in code, then `</pre>`, and clears both flags |
| BlockProps.NestedFencePieces | slides.c:110-161 | the lines ```` ``` ````, ```` ```c ````, ```` ``` ```` produce a pre opening, a code opening, `</code>` and one `</pre>` |
| BlockProps.NestedFences | slides.c:110-161 | the same as text: two `<pre>` openings and a single `</pre>` |
| BlockProps.FlattenPair | slides.c:164-171 | the text of two pieces is the text of the first followed by that of the second |
| Block.ConcatAppend | slides.c:106-263 | the text of concatenated writes is the concatenation of their texts |
| BlockProps.NestedFenceText | slides.c:116-156 | the four fence pieces spell their four fragments in order |
| BlockProps.H1Text | slides.c:176-189 | a `# ` heading renders its text from offset 2 |
| BlockProps.H2Text | slides.c:191-204 | a `## ` heading renders from offset 2, so its text keeps a leading space |
| BlockProps.H3Text | slides.c:206-214 | a `### ` heading renders from offset 3, so its text keeps a leading space too |
| BlockProps.LeadingSpaceKept | slides.c:199-213 | that leading space reaches the page, copied before the rendered text |
| BlockProps.ItemStep | slides.c:225-233 | a `- ` line writes `  <ul>` only when no list is open, never `  </ul>`, and leaves the list open |
| BlockProps.ItemsGroup | slides.c:225-233 | consecutive `- ` lines form one list: one `  <ul>` if none was open, none if one was, no `  </ul>`, and the list open afterwards |
| BlockProps.ListThenBlank | slides.c:235-240 | a blank line after a run of items closes the list, with as many `  </ul>` as `  <ul>` |
| BlockProps.WhenBalance | slides.c:112-115 | a conditional fragment counts only when written |
| BlockProps.SingleBalance | slides.c:106-263 | the balance of one piece is its own delta |
| BlockProps.ElementBalance | slides.c:230-232 | an element contributes only its opening and closing fragments to the balances |
| BlockProps.FenceBalance | slides.c:110-161 | fence lines open or close no section and change the list balance by the change of the list flag |
| BlockProps.SectionStepBalance | slides.c:176-204 | a section heading leaves exactly one section open and no list open |
| BlockProps.ClosedElementBalance | slides.c:206-250 | closing the list and writing an element leaves no list open and no section change |
| BlockProps.ElementLineBalance | slides.c:206-250 | `### `, notes and paragraphs change the balances by the change of the flags |
| BlockProps.ItemLineBalance | slides.c:225-233 | so do list items |
| BlockProps.TextBalance | slides.c:175-250 | so does every line outside code and pre blocks |
| BlockProps.RawBalance | slides.c:163-173 | code and pre lines open and close no section or list |
| BlockProps.NextBalance | slides.c:106-251 | every line changes the number of open sections and lists by exactly what it does to the two flags |
| BlockProps.RunBalance | slides.c:102-251 | after any number of lines the open sections and lists number 1 or 0, exactly as the flags say, so they never nest and are never closed more often than opened |
| BlockProps.ClosingBalance | slides.c:253-263 | the end closures close the open section and the open list |
| BlockProps.DocumentBalanced | slides.c:102-263 | in the finished document `<section>` openings equal closings, and `  <ul>` equals `  </ul>` |

## Left out

- Input and output (`fopen`, `fgets`, `fputs`, `fputc`, `rewind`, `fclose`,
  `perror`) and the argument check of `main`. The input is the sequence of
  lines already split, and the output is a sequence of strings, one per
  piece.
  A failed `fopen` is not modelled.
- The prologue and epilogue strings `PART1` and `PART2` written around the
  converted body. They are fixed text with no behaviour.
- The fixed buffers. Lines longer than 1023 characters are split by `fgets`
  into several lines, and the `strcpy`/`strcat` into a 1024-byte name buffer
  can overflow. The model takes lines and paths of any length.
- Line endings. Only `\n` is removed from a line, so a trailing `\r` stays
  part of it. The model takes the lines as given. A NUL byte inside a line
  ends the C string early, and the model's strings contain no such cut.
- Bom.StartOffset: models the decision on the file's bytes only. The reading
  and rewinding of the stream are not modelled.
- Block.Transducer.Put: the output is a sequence of strings, one entry per
  piece, rather than a sequence of characters. The source writes rendered and
  escaped text one `fputc`/`fputs` at a time. The file's content is the
  concatenation of the entries (`Concat`).
- Bytes and characters. The C code works on bytes and the model on Dafny
  `char`. Every delimiter, prefix, fence and entity involved is ASCII, and
  UTF-8 never uses an ASCII byte inside a multi-byte character, so UTF-8
  input gives the same output either way.
