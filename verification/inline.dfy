/** The inline renderer of the slide generator (`render_inline`).

    A line is read left to right as a flat list of spans: `**…**` (strong),
    `*…*` (emphasis), `` `…` `` (inline code), tried in that order at each
    position, and single characters otherwise. A span with no closing
    delimiter runs to the end of the line and still gets its closing tag.
    Nothing is entity-escaped. */
module Inline {

  /** One span of a line, as the renderer reads it. `closed` says whether
      the closing delimiter was found on the line. */
  datatype Span =
    | Plain(c: char)
    | Strong(text: string, closed: bool)
    | Em(text: string, closed: bool)
    | Code(text: string, closed: bool)
  {
    predicate Closed() {
      Plain? || closed
    }
  }

  /** `s[i]` and `s[i+1]` are both `*`: a `**` delimiter starts at `i`.
      (In the source `s[1]` of the last character is the terminating NUL.) */
  predicate DoubleStarAt(s: string, i: int) {
    0 <= i && i + 1 < |s| && s[i] == '*' && s[i + 1] == '*'
  }

  /** No `**` occurs in `s`. */
  predicate NoDoubleStar(s: string) {
    forall i :: 0 <= i < |s| ==> !DoubleStarAt(s, i)
  }

  /** Where the content of a `**` span that starts at `i` ends: at the first
      `**` from `i` on, or at the end of the line. */
  function StrongEnd(s: string, i: nat): (k: nat)
    requires i <= |s|
    ensures i <= k <= |s|
    ensures k < |s| ==> DoubleStarAt(s, k)
    ensures forall j :: i <= j < k ==> !DoubleStarAt(s, j)
    decreases |s| - i
  {
    if i == |s| || DoubleStarAt(s, i) then i else StrongEnd(s, i + 1)
  }

  /** Where the content of a `*` or `` ` `` span that starts at `i` ends: at
      the first `d` from `i` on, or at the end of the line. */
  function CharEnd(s: string, i: nat, d: char): (k: nat)
    requires i <= |s|
    ensures i <= k <= |s|
    ensures k < |s| ==> s[k] == d
    ensures d !in s[i..k]
    decreases |s| - i
  {
    if i == |s| || s[i] == d then i
    else
      var k := CharEnd(s, i + 1, d);
      assert s[i..k] == [s[i]] + s[i + 1..k];
      k
  }

  /** The source text of one span: its delimiters (the closing one only when
      it was found) around its content. */
  function UnparseSpan(sp: Span): string {
    match sp
    case Plain(c) => [c]
    case Strong(t, closed) => "**" + t + (if closed then "**" else "")
    case Em(t, closed) => "*" + t + (if closed then "*" else "")
    case Code(t, closed) => "`" + t + (if closed then "`" else "")
  }

  function Unparse(ss: seq<Span>): string {
    if ss == [] then [] else UnparseSpan(ss[0]) + Unparse(ss[1..])
  }

  /** What the renderer guarantees of a span: a plain character is not a
      delimiter, a span's content holds no delimiter that would have closed
      it, and a closed emphasis is not empty (`**` would have been strong). */
  predicate SpanOk(sp: Span) {
    match sp
    case Plain(c) => c != '*' && c != '`'
    case Strong(t, closed) => NoDoubleStar(t) && (closed && t != [] ==> t[|t| - 1] != '*')
    case Em(t, closed) => '*' !in t && (closed ==> t != [])
    case Code(t, _) => '`' !in t
  }

  /** Spans are flat and well formed, and only the last one may be unclosed. */
  predicate WellFormed(ss: seq<Span>) {
    forall i :: 0 <= i < |ss| ==> SpanOk(ss[i]) && (ss[i].Closed() || i == |ss| - 1)
  }

  /** The `**` span that starts at `i`, and where the scan resumes after it. */
  function StrongSpan(s: string, i: nat): (r: (Span, nat))
    requires DoubleStarAt(s, i)
    ensures i < r.1 <= |s|
  {
    var k := StrongEnd(s, i + 2);
    if k < |s| then (Strong(s[i + 2..k], true), k + 2)
    else (Strong(s[i + 2..], false), |s|)
  }

  /** The `*` or `` ` `` span that starts at `i` (not a `**`), and where the
      scan resumes after it. */
  function DelimSpan(s: string, i: nat): (r: (Span, nat))
    requires i < |s| && (s[i] == '*' || s[i] == '`')
    ensures i < r.1 <= |s|
  {
    var k := CharEnd(s, i + 1, s[i]);
    var t := s[i + 1..k];
    var sp := if s[i] == '*' then Em(t, k < |s|) else Code(t, k < |s|);
    if k < |s| then (sp, k + 1) else (sp, |s|)
  }

  /** The span that starts at `i`, and where the scan resumes after it. */
  function NextSpan(s: string, i: nat): (r: (Span, nat))
    requires i < |s|
    ensures i < r.1 <= |s|
  {
    if DoubleStarAt(s, i) then StrongSpan(s, i)
    else if s[i] == '*' || s[i] == '`' then DelimSpan(s, i)
    else (Plain(s[i]), i + 1)
  }

  lemma SliceSplit(s: string, a: nat, b: nat, c: nat)
    requires a <= b <= c <= |s|
    ensures s[a..c] == s[a..b] + s[b..c]
  {
  }

  /** The content of a `**` span holds no `**`. */
  lemma StrongContentOk(s: string, a: nat)
    requires a <= |s|
    ensures NoDoubleStar(s[a..StrongEnd(s, a)])
  {
    var t := s[a..StrongEnd(s, a)];
    forall j | 0 <= j < |t| ensures !DoubleStarAt(t, j) {
      assert !DoubleStarAt(s, a + j);
    }
  }

  /** `s[a..b+2]` is the `**` at `a`, the text between, and the `**` at `b`. */
  lemma DoubleBracketed(s: string, a: nat, b: nat)
    requires a + 2 <= b && DoubleStarAt(s, a) && DoubleStarAt(s, b)
    ensures s[a..b + 2] == "**" + s[a + 2..b] + "**"
  {
    assert s[a..a + 2] == "**" && s[b..b + 2] == "**";
    SliceSplit(s, a, a + 2, b + 2);
    SliceSplit(s, a + 2, b, b + 2);
  }

  /** The character before a closing `**` is not a `*`. */
  lemma StrongLastOk(s: string, a: nat)
    requires a <= |s| && StrongEnd(s, a) < |s|
    ensures a < StrongEnd(s, a) ==> s[StrongEnd(s, a) - 1] != '*'
  {
    var k := StrongEnd(s, a);
    if a < k {
      assert !DoubleStarAt(s, k - 1);
    }
  }

  lemma StrongClosedSound(s: string, i: nat, k: nat)
    requires DoubleStarAt(s, i) && k == StrongEnd(s, i + 2) && k < |s|
    ensures StrongSpan(s, i) == (Strong(s[i + 2..k], true), k + 2)
    ensures UnparseSpan(Strong(s[i + 2..k], true)) == s[i..k + 2]
    ensures SpanOk(Strong(s[i + 2..k], true))
  {
    var t := s[i + 2..k];
    StrongContentOk(s, i + 2);
    StrongLastOk(s, i + 2);
    assert t != [] ==> t[|t| - 1] == s[k - 1];
    DoubleBracketed(s, i, k);
  }

  lemma StrongOpenSound(s: string, i: nat)
    requires DoubleStarAt(s, i) && StrongEnd(s, i + 2) == |s|
    ensures StrongSpan(s, i) == (Strong(s[i + 2..], false), |s|)
    ensures UnparseSpan(Strong(s[i + 2..], false)) == s[i..]
    ensures SpanOk(Strong(s[i + 2..], false))
  {
    StrongContentOk(s, i + 2);
    assert s[i + 2..] == s[i + 2..StrongEnd(s, i + 2)];
    assert s[i..i + 2] == "**";
    SliceSplit(s, i, i + 2, |s|);
  }

  lemma StrongSpanSound(s: string, i: nat)
    requires DoubleStarAt(s, i)
    ensures UnparseSpan(StrongSpan(s, i).0) == s[i..StrongSpan(s, i).1]
    ensures SpanOk(StrongSpan(s, i).0)
    ensures !StrongSpan(s, i).0.Closed() ==> StrongSpan(s, i).1 == |s|
  {
    var k := StrongEnd(s, i + 2);
    if k < |s| {
      StrongClosedSound(s, i, k);
    } else {
      StrongOpenSound(s, i);
    }
  }

  /** `s[a..b+1]` is `s[a]`, the text between, and `s[b]`. */
  lemma Bracketed(s: string, a: nat, b: nat)
    requires a < b < |s|
    ensures s[a..b + 1] == [s[a]] + s[a + 1..b] + [s[b]]
  {
    assert s[a..b + 1] == [s[a]] + s[a + 1..b + 1];
    assert s[a + 1..b + 1] == s[a + 1..b] + [s[b]];
  }

  lemma EmClosedSound(s: string, i: nat, k: nat)
    requires i < |s| && s[i] == '*' && !DoubleStarAt(s, i)
    requires k == CharEnd(s, i + 1, '*') && k < |s|
    ensures DelimSpan(s, i) == (Em(s[i + 1..k], true), k + 1)
    ensures UnparseSpan(Em(s[i + 1..k], true)) == s[i..k + 1]
    ensures SpanOk(Em(s[i + 1..k], true))
  {
    Bracketed(s, i, k);
  }

  lemma CodeClosedSound(s: string, i: nat, k: nat)
    requires i < |s| && s[i] == '`'
    requires k == CharEnd(s, i + 1, '`') && k < |s|
    ensures DelimSpan(s, i) == (Code(s[i + 1..k], true), k + 1)
    ensures UnparseSpan(Code(s[i + 1..k], true)) == s[i..k + 1]
    ensures SpanOk(Code(s[i + 1..k], true))
  {
    Bracketed(s, i, k);
  }

  lemma EmOpenSound(s: string, i: nat)
    requires i < |s| && s[i] == '*'
    requires CharEnd(s, i + 1, '*') == |s|
    ensures DelimSpan(s, i) == (Em(s[i + 1..], false), |s|)
    ensures UnparseSpan(Em(s[i + 1..], false)) == s[i..]
    ensures SpanOk(Em(s[i + 1..], false))
  {
    assert s[i..] == [s[i]] + s[i + 1..];
    assert s[i + 1..] == s[i + 1..CharEnd(s, i + 1, '*')];
  }

  lemma CodeOpenSound(s: string, i: nat)
    requires i < |s| && s[i] == '`'
    requires CharEnd(s, i + 1, '`') == |s|
    ensures DelimSpan(s, i) == (Code(s[i + 1..], false), |s|)
    ensures UnparseSpan(Code(s[i + 1..], false)) == s[i..]
    ensures SpanOk(Code(s[i + 1..], false))
  {
    assert s[i..] == [s[i]] + s[i + 1..];
    assert s[i + 1..] == s[i + 1..CharEnd(s, i + 1, '`')];
  }

  lemma DelimSpanSound(s: string, i: nat)
    requires i < |s| && (s[i] == '*' || s[i] == '`') && !DoubleStarAt(s, i)
    ensures UnparseSpan(DelimSpan(s, i).0) == s[i..DelimSpan(s, i).1]
    ensures SpanOk(DelimSpan(s, i).0)
    ensures !DelimSpan(s, i).0.Closed() ==> DelimSpan(s, i).1 == |s|
  {
    var k := CharEnd(s, i + 1, s[i]);
    if k == |s| {
      if s[i] == '*' {
        EmOpenSound(s, i);
      } else {
        CodeOpenSound(s, i);
      }
    } else if s[i] == '*' {
      EmClosedSound(s, i, k);
    } else {
      CodeClosedSound(s, i, k);
    }
  }

  /** The span that starts at `i` has source text exactly `s[i..end]`, is
      well formed, and is unclosed only when it reaches the end of the line. */
  lemma NextSpanSound(s: string, i: nat)
    requires i < |s|
    ensures UnparseSpan(NextSpan(s, i).0) == s[i..NextSpan(s, i).1]
    ensures SpanOk(NextSpan(s, i).0)
    ensures !NextSpan(s, i).0.Closed() ==> NextSpan(s, i).1 == |s|
  {
    if DoubleStarAt(s, i) {
      StrongSpanSound(s, i);
    } else if s[i] == '*' || s[i] == '`' {
      DelimSpanSound(s, i);
    } else {
      assert s[i..i + 1] == [s[i]];
    }
  }

  /** The spans of the line from `i` on. */
  function ParseFrom(s: string, i: nat): (ss: seq<Span>)
    requires i <= |s|
    ensures |ss| <= |s| - i
    ensures ss == [] <==> i == |s|
    decreases |s| - i
  {
    if i == |s| then []
    else
      var next := NextSpan(s, i);
      [next.0] + ParseFrom(s, next.1)
  }

  /** One step of the reading: the next span, then the spans after it. */
  lemma ParseFromCons(s: string, i: nat)
    requires i < |s|
    ensures ParseFrom(s, i) == [NextSpan(s, i).0] + ParseFrom(s, NextSpan(s, i).1)
  {
  }

  lemma ParseFromConsAt(s: string, i: nat, sp: Span, j: nat)
    requires i < |s| && NextSpan(s, i).0 == sp && NextSpan(s, i).1 == j
    ensures ParseFrom(s, i) == [sp] + ParseFrom(s, j)
  {
  }

  /** Reading is lossless: the spans written back give `s[i..]`. */
  lemma {:induction false} ParseFromUnparse(s: string, i: nat)
    requires i <= |s|
    ensures Unparse(ParseFrom(s, i)) == s[i..]
    decreases |s| - i
  {
    if i < |s| {
      var next := NextSpan(s, i);
      ParseFromUnparse(s, next.1);
      NextSpanSound(s, i);
      ParseFromCons(s, i);
      UnparseCons(s, i, next.0, next.1, ParseFrom(s, next.1));
    }
  }

  /** A span with source `s[i..j]` followed by spans with source `s[j..]`
      have source `s[i..]`. */
  lemma UnparseCons(s: string, i: nat, sp: Span, j: nat, rest: seq<Span>)
    requires i <= j <= |s|
    requires UnparseSpan(sp) == s[i..j] && Unparse(rest) == s[j..]
    ensures Unparse([sp] + rest) == s[i..]
  {
    assert ([sp] + rest)[1..] == rest;
    SliceSplit(s, i, j, |s|);
  }

  /** Every span read from `i` on is well formed, and only the last one may
      be unclosed. */
  lemma {:induction false} ParseFromWellFormed(s: string, i: nat)
    requires i <= |s|
    ensures WellFormed(ParseFrom(s, i))
    decreases |s| - i
  {
    if i < |s| {
      var next := NextSpan(s, i);
      var rest := ParseFrom(s, next.1);
      NextSpanSound(s, i);
      ParseFromWellFormed(s, next.1);
      assert ParseFrom(s, i) == [next.0] + rest;
      assert !next.0.Closed() ==> rest == [];
      assert forall j :: 1 <= j < |[next.0] + rest| ==> ([next.0] + rest)[j] == rest[j - 1];
    }
  }

  /** The spans of a whole line. */
  function Parse(s: string): seq<Span> {
    ParseFrom(s, 0)
  }

  /** The markup written for one span. */
  function RenderSpan(sp: Span): (r: string)
    ensures sp.Plain? ==> r == [sp.c]
    ensures !sp.Plain? ==> |r| > 0 && r[0] == '<' && r[|r| - 1] == '>'
    ensures |UnparseSpan(sp)| <= |r|
  {
    match sp
    case Plain(c) => [c]
    case Strong(t, _) => "<strong>" + t + "</strong>"
    case Em(t, _) => "<em>" + t + "</em>"
    case Code(t, _) => "<code>" + t + "</code>"
  }

  function RenderSpans(ss: seq<Span>): (r: string)
    ensures |Unparse(ss)| <= |r|
  {
    if ss == [] then [] else RenderSpan(ss[0]) + RenderSpans(ss[1..])
  }

  /** Specification of `render_inline`: each span written in turn. */
  function RenderInline(s: string): (r: string)
    ensures |s| <= |r|
  {
    ParseRoundTrip(s);
    RenderSpans(Parse(s))
  }

  /** The read is lossless and flat: writing the spans back out, delimiters
      and all, gives the line again (so every character that is not a
      consumed delimiter reaches the output, in order), tags are never
      nested, and an unclosed span can only be the last one. */
  lemma ParseRoundTrip(s: string)
    ensures Unparse(Parse(s)) == s
    ensures WellFormed(Parse(s))
  {
    ParseFromUnparse(s, 0);
    ParseFromWellFormed(s, 0);
    assert s[0..] == s;
  }

  /** Parsing looks only forward: what precedes position `i` is irrelevant. */
  lemma {:induction false} ParseShift(p: string, t: string, i: nat)
    requires i <= |t|
    ensures ParseFrom(p + t, |p| + i) == ParseFrom(t, i)
    decreases |t| - i
  {
    if i < |t| {
      var sp, j := NextSpan(t, i).0, NextSpan(t, i).1;
      assert ParseFrom(p + t, |p| + i) == [sp] + ParseFrom(p + t, |p| + j) by {
        NextSpanShift(p, t, i);
        ParseFromConsAt(p + t, |p| + i, sp, |p| + j);
      }
      assert ParseFrom(t, i) == [sp] + ParseFrom(t, j) by {
        ParseFromConsAt(t, i, sp, j);
      }
      ParseShift(p, t, j);
    } else {
      assert |p| + i == |p + t|;
    }
  }

  lemma DoubleStarShift(p: string, t: string, i: nat)
    requires i < |t|
    ensures (p + t)[|p| + i] == t[i]
    ensures DoubleStarAt(p + t, |p| + i) <==> DoubleStarAt(t, i)
  {
    if i + 1 < |t| {
      assert (p + t)[|p| + i + 1] == t[i + 1];
    }
  }

  lemma StrongSpanShift(p: string, t: string, i: nat)
    requires DoubleStarAt(t, i)
    ensures DoubleStarAt(p + t, |p| + i)
    ensures StrongSpan(p + t, |p| + i) == (StrongSpan(t, i).0, |p| + StrongSpan(t, i).1)
  {
    DoubleStarShift(p, t, i);
    StrongEndShift(p, t, i + 2);
    var k := StrongEnd(t, i + 2);
    SliceShift(p, t, i + 2, k);
    if k == |t| {
      assert (p + t)[|p| + i + 2..] == (p + t)[|p| + i + 2..|p| + k];
      assert t[i + 2..] == t[i + 2..k];
    }
  }

  lemma DelimSpanShift(p: string, t: string, i: nat)
    requires i < |t| && (t[i] == '*' || t[i] == '`')
    ensures (p + t)[|p| + i] == t[i]
    ensures DelimSpan(p + t, |p| + i) == (DelimSpan(t, i).0, |p| + DelimSpan(t, i).1)
  {
    DoubleStarShift(p, t, i);
    CharEndShift(p, t, i + 1, t[i]);
    var k := CharEnd(t, i + 1, t[i]);
    SliceShift(p, t, i + 1, k);
  }

  lemma NextSpanShift(p: string, t: string, i: nat)
    requires i < |t|
    ensures NextSpan(p + t, |p| + i).0 == NextSpan(t, i).0
    ensures NextSpan(p + t, |p| + i).1 == |p| + NextSpan(t, i).1
  {
    DoubleStarShift(p, t, i);
    if DoubleStarAt(t, i) {
      StrongSpanShift(p, t, i);
    } else if t[i] == '*' || t[i] == '`' {
      DelimSpanShift(p, t, i);
    }
  }

  lemma SliceShift(p: string, t: string, a: nat, b: nat)
    requires a <= b <= |t|
    ensures (p + t)[|p| + a..|p| + b] == t[a..b]
  {
  }

  lemma {:induction false} StrongEndShift(p: string, t: string, i: nat)
    requires i <= |t|
    ensures StrongEnd(p + t, |p| + i) == |p| + StrongEnd(t, i)
    decreases |t| - i
  {
    var s := p + t;
    if i < |t| {
      assert s[|p| + i] == t[i];
      assert DoubleStarAt(s, |p| + i) <==> DoubleStarAt(t, i) by {
        if i + 1 < |t| { assert s[|p| + i + 1] == t[i + 1]; }
      }
      StrongEndShift(p, t, i + 1);
    }
  }

  lemma {:induction false} CharEndShift(p: string, t: string, i: nat, d: char)
    requires i <= |t|
    ensures CharEnd(p + t, |p| + i, d) == |p| + CharEnd(t, i, d)
    decreases |t| - i
  {
    if i < |t| {
      assert (p + t)[|p| + i] == t[i];
      CharEndShift(p, t, i + 1, d);
    }
  }

  /** A line with no `*` and no backtick is copied unchanged; `&`, `<` and
      `>` are not escaped. */
  lemma {:induction false} RenderPlain(s: string)
    requires '*' !in s && '`' !in s
    ensures RenderInline(s) == s
    decreases |s|
  {
    if s != [] {
      assert NextSpan(s, 0) == (Plain(s[0]), 1);
      RenderPlain(s[1..]);
      ParseShift([s[0]], s[1..], 0);
      assert [s[0]] + s[1..] == s;
    }
  }

  /** An ordinary first character is copied and the rest is rendered on its
      own. */
  lemma RenderCons(c: char, t: string)
    requires c != '*' && c != '`'
    ensures RenderInline([c] + t) == [c] + RenderInline(t)
  {
    assert NextSpan([c] + t, 0) == (Plain(c), 1);
    ParseShift([c], t, 0);
  }

  /** The scan reads `**x**` back as the closed span `x` when `x` holds no
      `**` and does not end in `*`. */
  lemma StrongClosedNext(x: string, rest: string)
    requires NoDoubleStar(x) && (x != [] ==> x[|x| - 1] != '*')
    ensures NextSpan("**" + x + "**" + rest, 0) == (Strong(x, true), |x| + 4)
  {
    var s := "**" + x + "**" + rest;
    assert DoubleStarAt(s, 0);
    assert DoubleStarAt(s, |x| + 2);
    forall j | 2 <= j < |x| + 2 ensures !DoubleStarAt(s, j) {
      if j + 1 < |x| + 2 { assert s[j] == x[j - 2] && s[j + 1] == x[j - 1]; assert !DoubleStarAt(x, j - 2); }
      else { assert s[j] == x[|x| - 1]; }
    }
    assert StrongEnd(s, 2) == |x| + 2;
    assert s[2..|x| + 2] == x;
  }

  /** The scan reads an unterminated `**x` as the unclosed span `x`. */
  lemma StrongOpenNext(x: string)
    requires NoDoubleStar(x)
    ensures NextSpan("**" + x, 0) == (Strong(x, false), |x| + 2)
  {
    var s := "**" + x;
    assert DoubleStarAt(s, 0);
    forall j | 2 <= j < |s| ensures !DoubleStarAt(s, j) {
      assert !DoubleStarAt(x, j - 2);
    }
    assert StrongEnd(s, 2) == |s|;
    assert s[2..] == x;
  }

  /** The scan reads `*x*` back as the closed span `x` for a non-empty `x`
      without `*`. */
  lemma EmClosedNext(x: string, rest: string)
    requires x != [] && '*' !in x
    ensures NextSpan("*" + x + "*" + rest, 0) == (Em(x, true), |x| + 2)
  {
    var s := "*" + x + "*" + rest;
    assert s[1] == x[0];
    assert s[1..|x| + 1] == x;
    CharEndAt(s, 1, |x| + 1, '*');
  }

  /** The scan reads an unterminated `*x` as the unclosed span `x`. */
  lemma EmOpenNext(x: string)
    requires '*' !in x
    ensures NextSpan("*" + x, 0) == (Em(x, false), |x| + 1)
  {
    var s := "*" + x;
    assert x != [] ==> s[1] == x[0];
    assert s[1..|s|] == x;
    CharEndAt(s, 1, |s|, '*');
    assert !DoubleStarAt(s, 0);
  }

  /** The scan reads `` `x` `` back as the closed span `x`. */
  lemma CodeClosedNext(x: string, rest: string)
    requires '`' !in x
    ensures NextSpan("`" + x + "`" + rest, 0) == (Code(x, true), |x| + 2)
  {
    var s := "`" + x + "`" + rest;
    assert s[1..|x| + 1] == x;
    CharEndAt(s, 1, |x| + 1, '`');
  }

  /** The scan reads an unterminated `` `x `` as the unclosed span `x`. */
  lemma CodeOpenNext(x: string)
    requires '`' !in x
    ensures NextSpan("`" + x, 0) == (Code(x, false), |x| + 1)
  {
    var s := "`" + x;
    assert s[1..|s|] == x;
    CharEndAt(s, 1, |s|, '`');
  }

  /** A line holding one unclosed span renders as that span alone. */
  lemma RenderSingle(s: string, sp: Span)
    requires s != [] && NextSpan(s, 0) == (sp, |s|)
    ensures RenderInline(s) == RenderSpan(sp)
  {
    assert ParseFrom(s, |s|) == [];
    assert ParseFrom(s, 0) == [sp] + [] == [sp];
    assert RenderSpans([sp]) == RenderSpan(sp) + RenderSpans([]);
  }

  /** `**x**` renders as `<strong>x</strong>` when `x` holds no `**` and does
      not end in `*` (a trailing `*` would close the span one early). */
  lemma RenderStrong(x: string, rest: string)
    requires NoDoubleStar(x) && (x != [] ==> x[|x| - 1] != '*')
    ensures RenderInline("**" + x + "**" + rest) == "<strong>" + x + "</strong>" + RenderInline(rest)
  {
    StrongClosedNext(x, rest);
    ParseShift("**" + x + "**", rest, 0);
  }

  /** An unterminated `**x` takes the rest of the line and is still closed. */
  lemma RenderStrongUnterminated(x: string)
    requires NoDoubleStar(x)
    ensures RenderInline("**" + x) == "<strong>" + x + "</strong>"
  {
    StrongOpenNext(x);
    RenderSingle("**" + x, Strong(x, false));
  }

  /** `*x*` renders as `<em>x</em>` for a non-empty `x` holding no `*`. */
  lemma RenderEm(x: string, rest: string)
    requires x != [] && '*' !in x
    ensures RenderInline("*" + x + "*" + rest) == "<em>" + x + "</em>" + RenderInline(rest)
  {
    EmClosedNext(x, rest);
    ParseShift("*" + x + "*", rest, 0);
  }

  /** An unterminated `*x` (with `x` holding no `*`, so not starting with one)
      takes the rest of the line and is still closed. */
  lemma RenderEmUnterminated(x: string)
    requires '*' !in x
    ensures RenderInline("*" + x) == "<em>" + x + "</em>"
  {
    EmOpenNext(x);
    RenderSingle("*" + x, Em(x, false));
  }

  /** `` `x` `` renders as `<code>x</code>` for an `x` holding no backtick. */
  lemma RenderCode(x: string, rest: string)
    requires '`' !in x
    ensures RenderInline("`" + x + "`" + rest) == "<code>" + x + "</code>" + RenderInline(rest)
  {
    CodeClosedNext(x, rest);
    ParseShift("`" + x + "`", rest, 0);
  }

  /** An unterminated `` `x `` takes the rest of the line and is still closed. */
  lemma RenderCodeUnterminated(x: string)
    requires '`' !in x
    ensures RenderInline("`" + x) == "<code>" + x + "</code>"
  {
    CodeOpenNext(x);
    RenderSingle("`" + x, Code(x, false));
  }

  /** The scan reads the source text of a well-formed span back as that
      span, whatever follows a closed one. */
  lemma UnparseNext(sp: Span, rest: string)
    requires SpanOk(sp) && (sp.Closed() || rest == [])
    ensures NextSpan(UnparseSpan(sp) + rest, 0) == (sp, |UnparseSpan(sp)|)
  {
    match sp
    case Plain(c) =>
      assert (UnparseSpan(sp) + rest)[0] == c;
    case Strong(x, closed) =>
      if closed {
        StrongClosedNext(x, rest);
      } else {
        StrongOpenNext(x);
        assert UnparseSpan(sp) + rest == "**" + x;
      }
    case Em(x, closed) =>
      if closed {
        EmClosedNext(x, rest);
      } else {
        EmOpenNext(x);
        assert UnparseSpan(sp) + rest == "*" + x;
      }
    case Code(x, closed) =>
      if closed {
        CodeClosedNext(x, rest);
      } else {
        CodeOpenNext(x);
        assert UnparseSpan(sp) + rest == "`" + x;
      }
  }

  /** The reading is the only well-formed one: any flat, well-formed list of
      spans whose source text is a line is exactly what the scan reads from
      that line. With `ParseRoundTrip` this characterises `Parse`
      independently of the scan. */
  lemma {:induction false} ParseUnique(ss: seq<Span>)
    requires WellFormed(ss)
    ensures Parse(Unparse(ss)) == ss
  {
    if ss != [] {
      var p := UnparseSpan(ss[0]);
      var rest := ss[1..];
      assert WellFormed(rest) by {
        forall i | 0 <= i < |rest| ensures SpanOk(rest[i]) && (rest[i].Closed() || i == |rest| - 1) {
          assert rest[i] == ss[i + 1];
        }
      }
      var r := Unparse(rest);
      assert Unparse(ss) == p + r;
      ParseUnique(rest);
      assert !ss[0].Closed() ==> r == [];
      UnparseNext(ss[0], r);
      ParseFromConsAt(p + r, 0, ss[0], |p|);
      ParseShift(p, r, 0);
      assert ParseFrom(r, 0) == rest;
      assert [ss[0]] + rest == ss;
    }
  }

  /** `CharEnd` finds `k` when no `d` lies in `s[i..k]` and `k` is `d` or the end. */
  lemma {:induction false} CharEndAt(s: string, i: nat, k: nat, d: char)
    requires i <= k <= |s|
    requires d !in s[i..k]
    requires k < |s| ==> s[k] == d
    ensures CharEnd(s, i, d) == k
    decreases k - i
  {
    if i < k {
      assert s[i] == s[i..k][0];
      assert s[i + 1..k] == s[i..k][1..];
      CharEndAt(s, i + 1, k, d);
    }
  }

  /** Rendering from `i` writes the span at `i`, then renders on from its end. */
  lemma RenderFromStep(s: string, i: nat)
    requires i < |s|
    ensures RenderSpans(ParseFrom(s, i))
         == RenderSpan(NextSpan(s, i).0) + RenderSpans(ParseFrom(s, NextSpan(s, i).1))
  {
    var next := NextSpan(s, i);
    var rest := ParseFrom(s, next.1);
    assert ParseFrom(s, i) == [next.0] + rest;
    assert ([next.0] + rest)[1..] == rest;
  }

  /** The copy loop of the `**` branch: characters from `j` up to the next
      `**` or the end of the line. */
  method CopyToDoubleStar(s: string, j: nat) returns (t: string, k: nat)
    requires j <= |s|
    ensures k == StrongEnd(s, j) && t == s[j..k]
  {
    k := j;
    t := [];
    while k < |s| && !(s[k] == '*' && k + 1 < |s| && s[k + 1] == '*')
      invariant j <= k <= |s|
      invariant t == s[j..k]
      invariant StrongEnd(s, j) == StrongEnd(s, k)
    {
      assert s[j..k + 1] == s[j..k] + [s[k]];
      t := t + [s[k]];
      k := k + 1;
    }
  }

  /** The copy loop of the `*` and backtick branches: characters from `j`
      up to the next `d` or the end of the line. */
  method CopyToChar(s: string, j: nat, d: char) returns (t: string, k: nat)
    requires j <= |s|
    ensures k == CharEnd(s, j, d) && t == s[j..k]
  {
    k := j;
    t := [];
    while k < |s| && s[k] != d
      invariant j <= k <= |s|
      invariant t == s[j..k]
      invariant CharEnd(s, j, d) == CharEnd(s, k, d)
    {
      assert s[j..k + 1] == s[j..k] + [s[k]];
      t := t + [s[k]];
      k := k + 1;
    }
  }

  /** The `**` branch of `render_inline`: `<strong>`, the copied content,
      `</strong>`, and a step over the closing `**` when there is one. */
  method StrongAt(s: string, i: nat) returns (w: string, j: nat)
    requires DoubleStarAt(s, i)
    ensures w == RenderSpan(StrongSpan(s, i).0) && j == StrongSpan(s, i).1
  {
    var t, k := CopyToDoubleStar(s, i + 2);
    w := "<strong>" + t + "</strong>";
    if k < |s| {
      j := k + 2;
    } else {
      assert s[i + 2..] == t;
      j := k;
    }
  }

  /** The `*` and backtick branches: the opening tag, the copied content,
      the closing tag, and a step over the closing delimiter when there is
      one. */
  method DelimAt(s: string, i: nat) returns (w: string, j: nat)
    requires i < |s| && (s[i] == '*' || s[i] == '`')
    ensures w == RenderSpan(DelimSpan(s, i).0) && j == DelimSpan(s, i).1
  {
    var t, k := CopyToChar(s, i + 1, s[i]);
    if s[i] == '*' {
      w := "<em>" + t + "</em>";
    } else {
      w := "<code>" + t + "</code>";
    }
    j := if k < |s| then k + 1 else k;
  }

  /** One pass of the loop of `render_inline`: `**` is tried first, then `*`
      and the backtick, then the character is copied. */
  method SpanAt(s: string, i: nat) returns (w: string, j: nat)
    requires i < |s|
    ensures w == RenderSpan(NextSpan(s, i).0) && j == NextSpan(s, i).1
  {
    if i + 1 < |s| && s[i] == '*' && s[i + 1] == '*' {
      w, j := StrongAt(s, i);
    } else if s[i] == '*' || s[i] == '`' {
      w, j := DelimAt(s, i);
    } else {
      w, j := [s[i]], i + 1;
    }
  }

  /** `render_inline`: a left-to-right scan that writes one character or one
      span at a time. Every pass of the loop consumes at least one
      character, so the scan ends. */
  method RenderLine(s: string) returns (r: string)
    ensures r == RenderInline(s)
  {
    r := [];
    var i := 0;
    while i < |s|
      invariant 0 <= i <= |s|
      invariant r + RenderSpans(ParseFrom(s, i)) == RenderInline(s)
      decreases |s| - i
    {
      RenderFromStep(s, i);
      var w, j := SpanAt(s, i);
      r, i := r + w, j;
    }
  }
}
