/** A chat line as rich text, and reading it back. */
module ChatHtml {
  import opened Basics
  import opened ChatLinks

  const OPEN := "<a href=\""
  const MIDDLE := "\">"
  const CLOSE := "</a>"

  function EscapedChar(c: char): string {
    if c == '<' then "&lt;"
    else if c == '>' then "&gt;"
    else if c == '&' then "&amp;"
    else if c == '"' then "&quot;"
    else [c]
  }

  function Escaped(text: string): string {
    if text == "" then "" else EscapedChar(text[0]) + Escaped(text[1..])
  }

  function Anchor(url: string): string {
    OPEN + url + MIDDLE + url + CLOSE
  }

  // The spans lie in the line, in order, from `at` on.
  predicate InLine(text: string, spans: seq<LinkSpan>, at: nat) {
    if spans == [] then at <= |text|
    else at <= spans[0].begin <= spans[0].end <= |text| && InLine(text, spans[1..], spans[0].end)
  }

  // The line from `at`: what is outside the links escaped, each link wrapped around itself.
  function Html(text: string, spans: seq<LinkSpan>, at: nat): string
    requires InLine(text, spans, at)
  {
    if spans == [] then Escaped(text[at..])
    else
      var link := spans[0];
      Escaped(text[at..link.begin]) + (Anchor(Escaped(text[link.begin..link.end])) + Html(text, spans[1..], link.end))
  }

  method ToHtml(line: string) returns (html: string, spans: seq<LinkSpan>)
    ensures Exact(line, spans) && InLine(line, spans, 0) && html == Html(line, spans, 0)
    ensures Parse(html) == Some(Pieces(line, spans, 0))
    ensures Flattened(Pieces(line, spans, 0)) == line
  {
    spans := FindLinks(line);
    ExactIsInLine(line, spans);
    html := "";
    var at: nat := 0;
    assert spans[0..] == spans;
    for i := 0 to |spans|
      invariant InLine(line, spans[i..], at)
      invariant html + Html(line, spans[i..], at) == Html(line, spans, 0)
    {
      var link := spans[i];
      LinkStep(line, spans, i, at, html);
      hide Html, Escaped, Anchor, InLine;
      html := html + Escaped(line[at..link.begin]);
      var url := Escaped(line[link.begin..link.end]);
      html := html + Anchor(url);
      at := link.end;
    }
    assert Html(line, [], at) == Escaped(line[at..]);
    assert spans[|spans|..] == [];
    hide Html, Escaped, Exact, InLine;
    html := html + Escaped(line[at..]);
    ReadsBack(line, spans, 0);
    FlattensToTheLine(line, spans, 0);
    assert line[0..] == line;
  }

  // One turn of the loop moves one link, and the text before it, from what is left to what is done.
  lemma {:induction false} LinkStep(text: string, spans: seq<LinkSpan>, i: nat, at: nat, done: string)
    requires i < |spans| && InLine(text, spans[i..], at)
    ensures at <= spans[i].begin <= spans[i].end <= |text| && InLine(text, spans[i + 1..], spans[i].end)
    ensures done + Html(text, spans[i..], at)
         == done + Escaped(text[at..spans[i].begin]) + Anchor(Escaped(text[spans[i].begin..spans[i].end]))
          + Html(text, spans[i + 1..], spans[i].end)
  {
    assert spans[i..][0] == spans[i] && spans[i..][1..] == spans[i + 1..];
    Regroup(done, Escaped(text[at..spans[i].begin]), Anchor(Escaped(text[spans[i].begin..spans[i].end])),
            Html(text, spans[i + 1..], spans[i].end));
  }

  lemma {:induction false} Regroup(a: string, b: string, c: string, d: string)
    ensures a + (b + (c + d)) == a + b + c + d
  {
  }

  lemma {:induction false} ExactIsInLine(text: string, spans: seq<LinkSpan>)
    requires Exact(text, spans)
    ensures InLine(text, spans, 0)
  {
    TailIsInLine(text, spans, 0, 0);
    assert spans[0..] == spans;
  }

  lemma {:induction false} TailIsInLine(text: string, spans: seq<LinkSpan>, i: nat, at: nat)
    requires Exact(text, spans) && i <= |spans| && at <= |text|
    requires forall j :: i <= j < |spans| ==> at <= spans[j].begin
    ensures InLine(text, spans[i..], at)
    decreases |spans| - i
  {
    if i < |spans| {
      assert spans[i] in spans;
      LinkShape(text, spans[i]);
      assert spans[i..][1..] == spans[i + 1..];
      TailIsInLine(text, spans, i + 1, spans[i].end);
    }
  }

  // --- Reading it back --------------------------------------------------------------------

  datatype Piece = Text(text: string) | Link(href: string, shown: string)

  function Pieces(text: string, spans: seq<LinkSpan>, at: nat): seq<Piece>
    requires InLine(text, spans, at)
  {
    if spans == [] then [Text(text[at..])]
    else
      var link := spans[0];
      var url := text[link.begin..link.end];
      [Text(text[at..link.begin]), Link(url, url)] + Pieces(text, spans[1..], link.end)
  }

  // The line with its tags taken out: what a reader sees.
  function Flattened(pieces: seq<Piece>): string {
    if pieces == [] then ""
    else (match pieces[0] case Text(t) => t case Link(_, shown) => shown) + Flattened(pieces[1..])
  }

  function Unescaped(html: string): string {
    if html == "" then ""
    else if "&lt;" <= html then "<" + Unescaped(html[4..])
    else if "&gt;" <= html then ">" + Unescaped(html[4..])
    else if "&amp;" <= html then "&" + Unescaped(html[5..])
    else if "&quot;" <= html then "\"" + Unescaped(html[6..])
    else [html[0]] + Unescaped(html[1..])
  }

  function IndexOf(s: string, c: char): (n: nat)
    ensures n <= |s|
    ensures c !in s[..n]
    ensures n < |s| ==> s[n] == c
  {
    if s == "" || s[0] == c then 0 else 1 + IndexOf(s[1..], c)
  }

  // A reader of this much HTML: text, and anchors around text. Its marks are its own.
  function Parse(html: string): Option<seq<Piece>>
    decreases |html|
  {
    var n := IndexOf(html, '<');
    var text := Text(Unescaped(html[..n]));
    if n == |html| then Some([text])
    else if !("<a href=\"" <= html[n..]) then None
    else ParseAnchor(text, html[n + 9..])
  }

  function ParseAnchor(text: Piece, body: string): Option<seq<Piece>>
    decreases |body|
  {
    var q := IndexOf(body, '"');
    if !("\">" <= body[q..]) then None
    else
      var inner := body[q + 2..];
      var m := IndexOf(inner, '<');
      if !("</a>" <= inner[m..]) then None
      else
        var rest := Parse(inner[m + 4..]);
        if rest.None? then None
        else Some([text, Link(Unescaped(body[..q]), Unescaped(inner[..m]))] + rest.value)
  }

  lemma {:induction false} UnescapedUndoesEscaped(text: string)
    ensures Unescaped(Escaped(text)) == text
  {
    if text != "" {
      UnescapedUndoesEscaped(text[1..]);
      UnescapesFirst(text[0], Escaped(text[1..]));
      hide Unescaped;
      assert [text[0]] + text[1..] == text;
    }
  }

  lemma {:induction false} UnescapesFirst(c: char, rest: string)
    ensures Unescaped(EscapedChar(c) + rest) == [c] + Unescaped(rest)
  {
    var mark := EscapedChar(c);
    var html := mark + rest;
    assert mark <= html && html[|mark|..] == rest;
    assert html[0] == mark[0];
    if |mark| == 1 {
      assert html[0] != '&';
    } else {
      assert html[1] == mark[1];
    }
  }

  lemma {:induction false} EscapedHidesMarkup(text: string)
    ensures '<' !in Escaped(text) && '>' !in Escaped(text) && '"' !in Escaped(text)
  {
    if text != "" {
      EscapedHidesMarkup(text[1..]);
    }
  }

  lemma {:induction false} IndexAfter(s: string, c: char, rest: string)
    requires c !in s && (rest != "" ==> rest[0] == c)
    ensures IndexOf(s + rest, c) == |s|
  {
    if s == "" {
      assert s + rest == rest;
    } else {
      assert (s + rest)[1..] == s[1..] + rest;
      IndexAfter(s[1..], c, rest);
    }
  }

  lemma {:induction false} CutAt(a: string, mark: string, b: string)
    ensures var s := a + (mark + b);
      && |a| + |mark| <= |s|
      && s[..|a|] == a && mark <= s[|a|..] && s[|a| + |mark|..] == b
  {
  }

  lemma {:induction false} ParsesText(text: string)
    ensures Parse(Escaped(text)) == Some([Text(text)])
  {
    EscapedHidesMarkup(text);
    UnescapedUndoesEscaped(text);
    IndexAfter(Escaped(text), '<', "");
    assert Escaped(text) + "" == Escaped(text);
    assert Escaped(text)[..|Escaped(text)|] == Escaped(text);
  }

  lemma {:induction false} ParsesUpToAnchor(before: string, body: string)
    ensures Parse(Escaped(before) + (OPEN + body)) == ParseAnchor(Text(before), body)
  {
    hide Escaped, Unescaped, IndexOf, ParseAnchor;
    var e := Escaped(before);
    var html := e + (OPEN + body);
    UnescapedUndoesEscaped(before);
    assert IndexOf(html, '<') == |e| by {
      EscapedHidesMarkup(before);
      IndexAfter(e, '<', OPEN + body);
    }
    CutAt(e, OPEN, body);
  }

  lemma {:induction false} ParsesAnchor(text: Piece, url: string, html: string)
    requires Parse(html).Some?
    ensures ParseAnchor(text, Escaped(url) + (MIDDLE + (Escaped(url) + (CLOSE + html))))
         == Some([text, Link(url, url)] + Parse(html).value)
  {
    hide Escaped, Unescaped, IndexOf, Parse;
    var e := Escaped(url);
    var inner := e + (CLOSE + html);
    UnescapedUndoesEscaped(url);
    assert IndexOf(e + (MIDDLE + inner), '"') == |e| && IndexOf(inner, '<') == |e| by {
      EscapedHidesMarkup(url);
      IndexAfter(e, '"', MIDDLE + inner);
      IndexAfter(e, '<', CLOSE + html);
    }
    CutAt(e, MIDDLE, inner);
    CutAt(e, CLOSE, html);
  }

  lemma {:induction false} AnchorParts(before: string, url: string, after: string)
    ensures before + (Anchor(url) + after) == before + (OPEN + (url + (MIDDLE + (url + (CLOSE + after)))))
  {
    assert Anchor(url) + after == OPEN + (url + (MIDDLE + (url + (CLOSE + after))));
  }

  // Whatever was typed, the HTML reads back as exactly the slices it was cut into, every link's
  // destination the very text shown for it.
  lemma {:induction false} ReadsBack(text: string, spans: seq<LinkSpan>, at: nat)
    requires InLine(text, spans, at)
    ensures Parse(Html(text, spans, at)) == Some(Pieces(text, spans, at))
  {
    if spans == [] {
      ParsesText(text[at..]);
    } else {
      var link := spans[0];
      var before, url, after := text[at..link.begin], text[link.begin..link.end], Html(text, spans[1..], link.end);
      ReadsBack(text, spans[1..], link.end);
      AnchorParts(Escaped(before), Escaped(url), after);
      hide Escaped, Parse, ParseAnchor, Anchor;
      ParsesUpToAnchor(before, Escaped(url) + (MIDDLE + (Escaped(url) + (CLOSE + after))));
      ParsesAnchor(Text(before), url, after);
    }
  }

  lemma {:induction false} FlattensToTheLine(text: string, spans: seq<LinkSpan>, at: nat)
    requires InLine(text, spans, at)
    ensures Flattened(Pieces(text, spans, at)) == text[at..]
  {
    var pieces := Pieces(text, spans, at);
    if spans == [] {
      assert pieces[1..] == [];
    } else {
      var link := spans[0];
      FlattensToTheLine(text, spans[1..], link.end);
      assert pieces[1..][1..] == Pieces(text, spans[1..], link.end);
      assert text[at..] == text[at..link.begin] + text[link.begin..link.end] + text[link.end..];
    }
  }

  // --- UTF-8, section 3 of RFC 3629 ---------------------------------------------------------

  predicate Byte(c: char, low: int, high: int) {
    low <= c as int <= high
  }

  predicate Tail(s: string, i: nat) {
    i < |s| && Byte(s[i], 0x80, 0xBF)
  }

  // The length of the character a string begins with, or zero when it begins with none.
  function CharLength(s: string): (n: nat)
    ensures n <= |s|
    ensures forall i :: 1 <= i < n ==> Tail(s, i)
  {
    if s == "" then 0
    else if Byte(s[0], 0x00, 0x7F) then 1
    else if Byte(s[0], 0xC2, 0xDF) && Tail(s, 1) then 2
    else if Byte(s[0], 0xE0, 0xEF) && Tail(s, 1) && Tail(s, 2)
         && (s[0] as int == 0xE0 ==> Byte(s[1], 0xA0, 0xBF))
         && (s[0] as int == 0xED ==> Byte(s[1], 0x80, 0x9F)) then 3
    else if Byte(s[0], 0xF0, 0xF4) && Tail(s, 1) && Tail(s, 2) && Tail(s, 3)
         && (s[0] as int == 0xF0 ==> Byte(s[1], 0x90, 0xBF))
         && (s[0] as int == 0xF4 ==> Byte(s[1], 0x80, 0x8F)) then 4
    else 0
  }

  predicate Utf8(s: string)
    decreases |s|
  {
    s == "" || (0 < CharLength(s) && Utf8(s[CharLength(s)..]))
  }

  predicate CutsCleanly(s: string, at: nat) {
    at == 0 || at == |s| || (at < |s| && Byte(s[at], 0x00, 0x7F))
  }

  lemma {:induction false} CleanCutSplits(s: string, at: nat)
    requires Utf8(s) && CutsCleanly(s, at)
    ensures Utf8(s[..at]) && Utf8(s[at..])
    decreases |s|
  {
    if at == 0 {
      assert s[at..] == s;
    } else if at == |s| {
      assert s[..at] == s;
    } else {
      var n := CharLength(s);
      assert 0 < n && Utf8(s[n..]);
      assert n <= at by {
        assert at < n ==> Tail(s, at);
      }
      hide CharLength, Utf8, Tail;
      assert CutsCleanly(s[n..], at - n);
      CleanCutSplits(s[n..], at - n);
      CutOfCut(s, n, at);
      SameCharLength(s, at);
      CharacterFirst(s[..at]);
      hide *;
    }
  }

  lemma {:induction false} CutOfCut(s: string, n: nat, at: nat)
    requires n <= at <= |s|
    ensures s[n..][at - n..] == s[at..] && s[n..][..at - n] == s[n..at] == s[..at][n..]
  {
  }

  lemma {:induction false} CharacterFirst(s: string)
    requires 0 < CharLength(s) && Utf8(s[CharLength(s)..])
    ensures Utf8(s)
  {
    hide CharLength;
  }

  // A cut past the first character leaves it whole.
  lemma {:induction false} SameCharLength(s: string, at: nat)
    requires 0 < CharLength(s) <= at <= |s|
    ensures CharLength(s[..at]) == CharLength(s)
  {
    var t, n := s[..at], CharLength(s);
    assert t[0] == s[0];
    assert forall i :: 0 <= i < n ==> t[i] == s[i];
    if 1 < n {
      assert t[1] == s[1] && Tail(t, 1);
    }
    if 2 < n {
      assert t[2] == s[2] && Tail(t, 2);
    }
    if 3 < n {
      assert t[3] == s[3] && Tail(t, 3);
    }
  }

  lemma {:induction false} CleanSlice(s: string, from: nat, to: nat)
    requires Utf8(s) && from <= to && CutsCleanly(s, from) && CutsCleanly(s, to)
    ensures Utf8(s[from..to])
  {
    hide Utf8;
    CleanCutSplits(s, from);
    var rest := s[from..];
    assert to < |s| ==> rest[to - from] == s[to];
    CleanCutSplits(rest, to - from);
    assert rest[..to - from] == s[from..to];
  }

  predicate PieceUtf8(p: Piece) {
    match p
    case Text(t) => Utf8(t)
    case Link(href, shown) => Utf8(href) && Utf8(shown)
  }

  lemma {:induction false} LinksCutCleanly(text: string, span: LinkSpan)
    requires IsLink(text, span)
    ensures CutsCleanly(text, span.begin) && CutsCleanly(text, span.end)
  {
    LinkShape(text, span);
  }

  // No character is ever cut in two: every piece of a valid line is valid.
  lemma {:induction false} PiecesAreUtf8(text: string, spans: seq<LinkSpan>, at: nat)
    requires Utf8(text) && InLine(text, spans, at) && CutsCleanly(text, at)
    requires forall span <- spans :: IsLink(text, span)
    ensures forall p <- Pieces(text, spans, at) :: PieceUtf8(p)
  {
    if spans == [] {
      CleanCutSplits(text, at);
    } else {
      var link := spans[0];
      LinksCutCleanly(text, link);
      CleanSlice(text, at, link.begin);
      CleanSlice(text, link.begin, link.end);
      PiecesAreUtf8(text, spans[1..], link.end);
    }
  }

  lemma {:induction false} ToHtmlKeepsUtf8(text: string, spans: seq<LinkSpan>)
    requires Utf8(text) && Exact(text, spans)
    ensures InLine(text, spans, 0)
    ensures forall p <- Pieces(text, spans, 0) :: PieceUtf8(p)
  {
    ExactIsInLine(text, spans);
    PiecesAreUtf8(text, spans, 0);
  }
}
