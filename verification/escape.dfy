/** The HTML escaper of the slide generator (`escape_html`): the three
    characters `&`, `<` and `>` become their entities, every other character
    is copied unchanged. It is used for the lines inside a fenced C block. */
module Escape {

  /** The text written for one input character. */
  function EscapeChar(c: char): (r: string)
    ensures c !in "&<>" ==> r == [c]
    ensures '<' !in r && '>' !in r
  {
    match c
    case '&' => "&amp;"
    case '<' => "&lt;"
    case '>' => "&gt;"
    case _ => [c]
  }

  /** Specification of `escape_html`: each character replaced by its escape. */
  function EscapeHtml(s: string): (r: string)
    ensures |s| <= |r| <= 5 * |s|
  {
    if s == [] then [] else EscapeChar(s[0]) + EscapeHtml(s[1..])
  }

  /** Inverse of the escaper: decodes the three entities it produces. */
  function Unescape(s: string): string
  {
    if s == [] then []
    else if |s| >= 5 && s[..5] == "&amp;" then "&" + Unescape(s[5..])
    else if |s| >= 4 && s[..4] == "&lt;" then "<" + Unescape(s[4..])
    else if |s| >= 4 && s[..4] == "&gt;" then ">" + Unescape(s[4..])
    else [s[0]] + Unescape(s[1..])
  }

  /** Escaping distributes over concatenation. */
  lemma {:induction false} EscapeAppend(a: string, b: string)
    ensures EscapeHtml(a + b) == EscapeHtml(a) + EscapeHtml(b)
  {
    if a != [] {
      assert (a + b)[1..] == a[1..] + b;
      EscapeAppend(a[1..], b);
    } else {
      assert a + b == b;
    }
  }

  /** Escaping one more character appends its escape. */
  lemma EscapeSnoc(p: string, c: char)
    ensures EscapeHtml(p + [c]) == EscapeHtml(p) + EscapeChar(c)
  {
    EscapeAppend(p, [c]);
    assert EscapeHtml([c]) == EscapeChar(c) + EscapeHtml([]);
  }

  /** A string without `&`, `<` and `>` is copied unchanged. */
  lemma {:induction false} EscapeIdentity(s: string)
    requires forall i :: 0 <= i < |s| ==> s[i] !in "&<>"
    ensures EscapeHtml(s) == s
  {
    if s != [] {
      EscapeIdentity(s[1..]);
    }
  }

  /** The escaped text holds no raw angle bracket. */
  lemma {:induction false} EscapeNoAngle(s: string)
    ensures '<' !in EscapeHtml(s) && '>' !in EscapeHtml(s)
  {
    if s != [] {
      EscapeNoAngle(s[1..]);
    }
  }

  /** Decoding undoes the escape of one character, whatever follows it. */
  lemma UnescapeChar(c: char, rest: string)
    ensures Unescape(EscapeChar(c) + rest) == [c] + Unescape(rest)
  {
    var e := EscapeChar(c) + rest;
    if c == '&' {
      assert e[..5] == "&amp;" && e[5..] == rest;
    } else if c == '<' {
      assert e[1] == 'l' && e[..4] == "&lt;" && e[4..] == rest;
      assert |e| >= 5 ==> e[..5][1] == 'l';
    } else if c == '>' {
      assert e[1] == 'g' && e[..4] == "&gt;" && e[4..] == rest;
      assert e[..4][1] == 'g';
      assert |e| >= 5 ==> e[..5][1] == 'g';
    } else {
      assert e[0] == c && e[1..] == rest;
      assert |e| >= 4 ==> e[..4][0] == c;
      assert |e| >= 5 ==> e[..5][0] == c;
    }
  }

  /** No information is lost: decoding the entities gives the input back. */
  lemma {:induction false} EscapeRoundTrip(s: string)
    ensures Unescape(EscapeHtml(s)) == s
  {
    if s != [] {
      EscapeRoundTrip(s[1..]);
      UnescapeChar(s[0], EscapeHtml(s[1..]));
      assert s == [s[0]] + s[1..];
    }
  }

  /** `escape_html`: one pass over the line, writing one character or one
      entity per input character. */
  method EscapeLine(s: string) returns (r: string)
    ensures r == EscapeHtml(s)
  {
    r := [];
    var i := 0;
    while i < |s|
      invariant 0 <= i <= |s|
      invariant r == EscapeHtml(s[..i])
    {
      var w: string;
      match s[i] {
        case '&' => w := "&amp;";
        case '<' => w := "&lt;";
        case '>' => w := "&gt;";
        case _ => w := [s[i]];
      }
      assert w == EscapeChar(s[i]);
      EscapeSnoc(s[..i], s[i]);
      assert s[..i + 1] == s[..i] + [s[i]];
      r := r + w;
      i := i + 1;
    }
    assert s[..i] == s;
  }
}
