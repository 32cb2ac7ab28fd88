/** Finding the URLs in a chat line. A line is its UTF-8 bytes, one char a byte. */
module ChatLinks {
  import opened Basics

  datatype LinkSpan = LinkSpan(begin: nat, end: nat)

  const HTTP := "http://"
  const HTTPS := "https://"

  // Whether the lower-case `prefix` stands at `at`, letter case aside.
  predicate StandsAt(text: string, at: nat, prefix: string) {
    && at + |prefix| <= |text|
    && forall i :: 0 <= i < |prefix| ==> Lower(text[at + i]) == prefix[i]
  }

  predicate SchemeByte(c: char) {
    'a' <= c <= 'z' || 'A' <= c <= 'Z' || '0' <= c <= '9' || c == '+' || c == '-' || c == '.'
  }

  predicate MayStartScheme(text: string, at: nat)
    requires at <= |text|
  {
    at == 0 || !SchemeByte(text[at - 1])
  }

  predicate TerminatesUrl(c: char) {
    c <= ' ' || c == 0x7F as char || c == '<' || c == '>' || c == '"'
  }

  predicate SentencePunctuation(c: char) {
    c in ".,;:!?\'`"
  }

  const OPENERS := "([{"
  const CLOSERS := ")]}"

  function Count(text: string, begin: nat, end: nat, c: char): nat
    requires begin <= end <= |text|
    decreases end - begin
  {
    if begin == end then 0
    else Count(text, begin, end - 1, c) + if text[end - 1] == c then 1 else 0
  }

  // --- What a link is ---------------------------------------------------------------------

  predicate ExcessCloser(text: string, begin: nat, end: nat, kind: nat)
    requires begin <= end <= |text| && kind < 3
  {
    Count(text, begin, end, OPENERS[kind]) < Count(text, begin, end, CLOSERS[kind])
  }

  // Whether the character before `end` is one the sentence put there: punctuation, or a closing
  // bracket with no opener of its own since `begin`.
  predicate Trims(text: string, begin: nat, end: nat)
    requires begin < end <= |text|
  {
    var last := text[end - 1];
    if last == CLOSERS[0] then ExcessCloser(text, begin, end, 0)
    else if last == CLOSERS[1] then ExcessCloser(text, begin, end, 1)
    else if last == CLOSERS[2] then ExcessCloser(text, begin, end, 2)
    else SentencePunctuation(last)
  }

  predicate StopsTrimming(text: string, begin: nat, end: nat)
    requires begin <= end <= |text|
  {
    begin == end || !Trims(text, begin, end)
  }

  // The greatest stopping point at or before `end`.
  function Trimmed(text: string, begin: nat, end: nat): (r: nat)
    requires begin <= end <= |text|
    ensures begin <= r <= end && StopsTrimming(text, begin, r)
    ensures forall e :: r < e <= end ==> !StopsTrimming(text, begin, e)
  {
    if StopsTrimming(text, begin, end) then end else Trimmed(text, begin, end - 1)
  }

  // The first terminator at or after `from`, or the end of the line.
  function RunEnd(text: string, from: nat): (end: nat)
    requires from <= |text|
    ensures from <= end <= |text|
    ensures forall i :: from <= i < end ==> !TerminatesUrl(text[i])
    ensures end < |text| ==> TerminatesUrl(text[end])
    decreases |text| - from
  {
    if from == |text| || TerminatesUrl(text[from]) then from else RunEnd(text, from + 1)
  }

  function SchemeLength(text: string, at: nat): (n: nat)
    ensures 0 < n ==> at + n <= |text|
  {
    if StandsAt(text, at, HTTPS) then |HTTPS| else if StandsAt(text, at, HTTP) then |HTTP| else 0
  }

  // A legal start: http:// or https:// that is not the tail of some longer word.
  predicate Starts(text: string, at: nat) {
    at <= |text| && MayStartScheme(text, at) && 0 < SchemeLength(text, at)
  }

  function Authority(text: string, at: nat): (r: nat)
    requires Starts(text, at)
    ensures at < r <= |text|
  {
    at + SchemeLength(text, at)
  }

  function LinkEnd(text: string, at: nat): (r: nat)
    requires Starts(text, at)
    ensures Authority(text, at) <= r <= |text|
  {
    Trimmed(text, Authority(text, at), RunEnd(text, Authority(text, at)))
  }

  // Something is left after the scheme once the sentence has taken its punctuation back.
  predicate Linked(text: string, at: nat) {
    Starts(text, at) && Authority(text, at) < LinkEnd(text, at)
  }

  predicate IsLink(text: string, span: LinkSpan) {
    Linked(text, span.begin) && span.end == LinkEnd(text, span.begin)
  }

  predicate Ordered(spans: seq<LinkSpan>) {
    forall i, j :: 0 <= i < j < |spans| ==> spans[i].end <= spans[j].begin
  }

  predicate Covers(spans: seq<LinkSpan>, at: nat) {
    exists span <- spans :: span.begin <= at < span.end
  }

  ghost predicate NoneMissed(text: string, spans: seq<LinkSpan>, before: nat) {
    forall at: nat :: at < before && Linked(text, at) ==> Covers(spans, at)
  }

  // The spans are links, in order and apart, and every link is one of them or starts inside one.
  ghost predicate Exact(text: string, spans: seq<LinkSpan>) {
    && (forall span <- spans :: IsLink(text, span))
    && Ordered(spans)
    && NoneMissed(text, spans, |text|)
  }

  // --- The code ---------------------------------------------------------------------------

  method StartsWithIgnoringCase(text: string, at: nat, prefix: string) returns (r: bool)
    requires at <= |text|
    ensures r <==> StandsAt(text, at, prefix)
  {
    if |text| - at < |prefix| {
      return false;
    }
    for i := 0 to |prefix|
      invariant forall k :: 0 <= k < i ==> Lower(text[at + k]) == prefix[k]
    {
      if Lower(text[at + i]) != prefix[i] {
        return false;
      }
    }
    return true;
  }

  method CountBrackets(text: string, begin: nat, end: nat, kind: nat) returns (openings: nat, closings: nat)
    requires begin <= end <= |text| && kind < 3
    ensures openings == Count(text, begin, end, OPENERS[kind])
    ensures closings == Count(text, begin, end, CLOSERS[kind])
  {
    openings, closings := 0, 0;
    for at := begin to end
      invariant openings == Count(text, begin, at, OPENERS[kind])
      invariant closings == Count(text, begin, at, CLOSERS[kind])
    {
      if text[at] == OPENERS[kind] {
        openings := openings + 1;
      }
      if text[at] == CLOSERS[kind] {
        closings := closings + 1;
      }
    }
  }

  method TrimTrailingPunctuation(text: string, begin: nat, end: nat) returns (r: nat)
    requires begin <= end <= |text|
    ensures r == Trimmed(text, begin, end)
  {
    r := end;
    while begin < r
      invariant begin <= r <= end
      invariant Trimmed(text, begin, end) == Trimmed(text, begin, r)
    {
      var last := text[r - 1];
      var closer := false;
      for i := 0 to |CLOSERS|
        invariant !closer && forall k :: 0 <= k < i ==> last != CLOSERS[k]
      {
        if last != CLOSERS[i] {
          continue;
        }
        closer := true;
        var openings, closings := CountBrackets(text, begin, r, i);
        if closings <= openings {
          return;
        }
        break;
      }
      if closer {
        r := r - 1;
        continue;
      }
      if SentencePunctuation(last) {
        r := r - 1;
        continue;
      }
      break;
    }
  }

  method FindLinks(text: string) returns (spans: seq<LinkSpan>)
    ensures Exact(text, spans)
  {
    spans := [];
    var at := 0;
    while at < |text|
      invariant at <= |text|
      invariant forall span <- spans :: IsLink(text, span) && span.end <= at
      invariant Ordered(spans)
      invariant NoneMissed(text, spans, at)
      decreases |text| - at
    {
      hide StandsAt, SchemeLength, LinkEnd, Covers;
      var schemeLength := SchemeAt(text, at);
      if schemeLength == 0 || !MayStartScheme(text, at) {
        assert !Linked(text, at);
        at := at + 1;
        continue;
      }
      var authority := at + schemeLength;
      var end := EndOfLink(text, at, authority);
      if end <= authority {
        NoneMissedInside(text, spans, at);
        at := authority;
        continue;
      }
      LinkFound(text, spans, at);
      spans := spans + [LinkSpan(at, end)];
      at := end;
    }
  }

  method EndOfLink(text: string, at: nat, authority: nat) returns (end: nat)
    requires Starts(text, at) && authority == Authority(text, at)
    ensures end == LinkEnd(text, at)
  {
    end := RunTo(text, authority);
    end := TrimTrailingPunctuation(text, authority, end);
  }

  method SchemeAt(text: string, at: nat) returns (n: nat)
    requires at <= |text|
    ensures n == SchemeLength(text, at)
  {
    var https := StartsWithIgnoringCase(text, at, HTTPS);
    if https {
      return |HTTPS|;
    }
    var http := StartsWithIgnoringCase(text, at, HTTP);
    return if http then |HTTP| else 0;
  }

  method RunTo(text: string, authority: nat) returns (end: nat)
    requires authority <= |text|
    ensures end == RunEnd(text, authority)
  {
    end := authority;
    while end < |text| && !TerminatesUrl(text[end])
      invariant authority <= end <= |text|
      invariant RunEnd(text, end) == RunEnd(text, authority)
    {
      end := end + 1;
    }
  }

  // --- Why it is exact --------------------------------------------------------------------

  lemma {:induction false} SchemesBeginWithH(text: string, at: nat)
    requires 0 < SchemeLength(text, at)
    ensures Lower(text[at]) == 'h'
  {
    assert HTTPS[0] == HTTP[0] == 'h';
    assert text[at] == text[at + 0];
  }

  // No scheme begins inside another: only its first letter is an h.
  lemma {:induction false} SchemesDoNotOverlap(text: string, at: nat, inside: nat)
    requires Starts(text, at) && at < inside < Authority(text, at)
    ensures !Starts(text, inside)
  {
    var k := inside - at;
    var scheme := if StandsAt(text, at, HTTPS) then HTTPS else HTTP;
    assert StandsAt(text, at, scheme) && k < |scheme|;
    assert Lower(text[at + k]) == scheme[k] != 'h';
    if 0 < SchemeLength(text, inside) {
      SchemesBeginWithH(text, inside);
    }
  }

  lemma {:induction false} NoneMissedInside(text: string, spans: seq<LinkSpan>, at: nat)
    requires NoneMissed(text, spans, at) && Starts(text, at) && !Linked(text, at)
    ensures NoneMissed(text, spans, Authority(text, at))
  {
    forall inside: nat | at < inside < Authority(text, at)
      ensures !Linked(text, inside)
    {
      SchemesDoNotOverlap(text, at, inside);
    }
  }

  lemma {:induction false} LinkFound(text: string, spans: seq<LinkSpan>, at: nat)
    requires NoneMissed(text, spans, at) && Linked(text, at)
    ensures NoneMissed(text, spans + [LinkSpan(at, LinkEnd(text, at))], LinkEnd(text, at))
  {
    var found := LinkSpan(at, LinkEnd(text, at));
    var more := spans + [found];
    assert found in more;
    forall p: nat | p < found.end && Linked(text, p)
      ensures Covers(more, p)
    {
      if p < at {
        assert Covers(spans, p);
      }
    }
  }

  // --- What exactness gives a caller ------------------------------------------------------

  lemma {:induction false} LinkShape(text: string, span: LinkSpan)
    requires IsLink(text, span)
    ensures span.begin < span.end <= |text|
    ensures Lower(text[span.begin]) == 'h' && MayStartScheme(text, span.begin)
    ensures forall i :: span.begin <= i < span.end ==> !TerminatesUrl(text[i])
    ensures span.end < |text| ==> TerminatesUrl(text[span.end]) || SentencePunctuation(text[span.end]) || text[span.end] in CLOSERS
  {
    var authority := Authority(text, span.begin);
    var scheme := if StandsAt(text, span.begin, HTTPS) then HTTPS else HTTP;
    assert StandsAt(text, span.begin, scheme) && authority == span.begin + |scheme|;
    SchemesBeginWithH(text, span.begin);
    forall i | span.begin <= i < authority
      ensures !TerminatesUrl(text[i])
    {
      assert Lower(text[span.begin + (i - span.begin)]) == scheme[i - span.begin];
      assert !TerminatesUrl(scheme[i - span.begin]);
    }
    var stop := RunEnd(text, authority);
    assert span.end < stop ==> !StopsTrimming(text, authority, span.end + 1);
  }

  // Wherever a legal scheme starts, a span starts, a span covers it, or all that follows it is
  // trimmed away.
  lemma {:induction false} EveryStartIsExplained(text: string, spans: seq<LinkSpan>, at: nat)
    requires Exact(text, spans) && Starts(text, at)
    ensures
      || LinkSpan(at, LinkEnd(text, at)) in spans
      || (exists span <- spans :: span.begin < at < span.end)
      || LinkEnd(text, at) == Authority(text, at)
  {
    if Linked(text, at) {
      assert Covers(spans, at);
      var span :| span in spans && span.begin <= at < span.end;
      assert IsLink(text, span);
    }
  }

  // With the first n spans shared, the next of `b` begins no later than the next of `a`.
  lemma {:induction false} NotBefore(text: string, a: seq<LinkSpan>, b: seq<LinkSpan>, n: nat)
    requires Exact(text, a) && Exact(text, b) && n < |a| && n <= |b| && a[..n] == b[..n]
    ensures n < |b| && b[n].begin <= a[n].begin
  {
    assert a[n] in a && IsLink(text, a[n]);
    assert Covers(b, a[n].begin);
    forall i | 0 <= i < n
      ensures b[i].end <= a[n].begin
    {
      assert a[i] == a[..n][i] == b[..n][i];
    }
    hide Exact, IsLink, NoneMissed, Linked;
    var span :| span in b && span.begin <= a[n].begin < span.end;
    var j :| 0 <= j < |b| && b[j] == span;
    assert n <= j;
    BeginsBeforeLater(text, b, n, j);
  }

  lemma {:induction false} BeginsBeforeLater(text: string, spans: seq<LinkSpan>, n: nat, j: nat)
    requires Exact(text, spans) && n <= j < |spans|
    ensures spans[n].begin <= spans[j].begin
  {
    assert spans[n] in spans && IsLink(text, spans[n]);
  }

  lemma {:induction false} SamePrefix(text: string, a: seq<LinkSpan>, b: seq<LinkSpan>, n: nat)
    requires Exact(text, a) && Exact(text, b) && n <= |a| && n <= |b|
    ensures a[..n] == b[..n]
  {
    hide Exact, IsLink;
    if 0 < n {
      var k := n - 1;
      SamePrefix(text, a, b, k);
      NotBefore(text, a, b, k);
      NotBefore(text, b, a, k);
      SameStart(text, a, b, k);
      assert a[..n] == a[..k] + [a[k]] && b[..n] == b[..k] + [b[k]];
    }
  }

  lemma {:induction false} SameStart(text: string, a: seq<LinkSpan>, b: seq<LinkSpan>, k: nat)
    requires Exact(text, a) && Exact(text, b) && k < |a| && k < |b| && a[k].begin == b[k].begin
    ensures a[k] == b[k]
  {
    assert a[k] in a && b[k] in b;
  }

  // There is one exact list of spans, and so only one thing `find_links` can return.
  lemma {:induction false} ExactIsUnique(text: string, a: seq<LinkSpan>, b: seq<LinkSpan>)
    requires Exact(text, a) && Exact(text, b)
    ensures a == b
  {
    hide Exact;
    var n := if |a| < |b| then |a| else |b|;
    SamePrefix(text, a, b, n);
    if n < |a| {
      NotBefore(text, a, b, n);
    } else if n < |b| {
      NotBefore(text, b, a, n);
    }
    assert a == a[..n] && b == b[..n];
  }
}
