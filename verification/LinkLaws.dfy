/** What a link is, on literal characters. */
module LinkLaws {
  import opened Basics
  import opened ChatLinks

  // Brackets are counted without regard to where they stand.
  predicate Balanced(s: string, opener: char, closer: char) {
    multiset(s)[closer] <= multiset(s)[opener]
  }

  // Text a link may end with: no punctuation of the sentence's, and no closing bracket that was not
  // opened in it.
  predicate EndsWell(s: string)
    requires s != ""
  {
    var last := s[|s| - 1];
    && last !in ".,;:!?'`"
    && (last == ')' ==> Balanced(s, '(', ')'))
    && (last == ']' ==> Balanced(s, '[', ']'))
    && (last == '}' ==> Balanced(s, '{', '}'))
  }

  lemma {:induction false} CountIsMultiset(text: string, begin: nat, end: nat, c: char)
    requires begin <= end <= |text|
    ensures Count(text, begin, end, c) == multiset(text[begin..end])[c]
    decreases end - begin
  {
    if begin == end {
      assert text[begin..end] == [];
    } else {
      CountIsMultiset(text, begin, end - 1, c);
      assert text[begin..end] == text[begin..end - 1] + [text[end - 1]];
    }
  }

  lemma {:induction false} StopsMeansEndsWell(text: string, begin: nat, end: nat)
    requires begin < end <= |text|
    ensures StopsTrimming(text, begin, end) <==> EndsWell(text[begin..end])
  {
    var s := text[begin..end];
    assert s[|s| - 1] == text[end - 1];
    CountIsMultiset(text, begin, end, '(');
    CountIsMultiset(text, begin, end, ')');
    CountIsMultiset(text, begin, end, '[');
    CountIsMultiset(text, begin, end, ']');
    CountIsMultiset(text, begin, end, '{');
    CountIsMultiset(text, begin, end, '}');
    hide Count;
  }

  // Trimming ends at the last place where the text ends well, or at nothing.
  lemma {:induction false} TrimsToTheLastGoodEnd(text: string, begin: nat, end: nat)
    requires begin <= end <= |text|
    ensures var r := Trimmed(text, begin, end);
      && begin <= r <= end
      && (begin < r ==> EndsWell(text[begin..r]))
      && forall e :: r < e <= end ==> !EndsWell(text[begin..e])
  {
    var r := Trimmed(text, begin, end);
    if begin < r {
      StopsMeansEndsWell(text, begin, r);
    }
    forall e | r < e <= end
      ensures !EndsWell(text[begin..e])
    {
      StopsMeansEndsWell(text, begin, e);
    }
    hide Trimmed, EndsWell, StopsTrimming;
  }

  // A byte no URL holds: a space or a control character, an angle bracket or a double quote.
  predicate Stops(c: char) {
    c as int <= 32 || c as int == 127 || c in "<>\""
  }

  // A letter, a digit, a plus, a minus or a dot: what makes a scheme after it the tail of a word.
  predicate Joins(c: char) {
    var n := c as int;
    48 <= n <= 57 || 65 <= n <= 90 || 97 <= n <= 122 || n == 43 || n == 45 || n == 46
  }

  lemma {:induction false} StopsIsTerminates(c: char)
    ensures TerminatesUrl(c) <==> Stops(c)
  {
  }

  lemma {:induction false} JoinsIsSchemeByte(c: char)
    ensures SchemeByte(c) <==> Joins(c)
  {
  }

  // A letter, whichever its case.
  predicate Either(c: char, lower: char, upper: char) {
    c == lower || c == upper
  }

  predicate HttpAt(s: string) {
    && 7 <= |s| && Either(s[0], 'h', 'H') && Either(s[1], 't', 'T') && Either(s[2], 't', 'T') && Either(s[3], 'p', 'P')
    && s[4] == ':' && s[5] == '/' && s[6] == '/'
  }

  predicate HttpsAt(s: string) {
    && 8 <= |s| && Either(s[0], 'h', 'H') && Either(s[1], 't', 'T') && Either(s[2], 't', 'T') && Either(s[3], 'p', 'P')
    && Either(s[4], 's', 'S') && s[5] == ':' && s[6] == '/' && s[7] == '/'
  }

  lemma {:induction false} LetterIs(c: char, lower: char)
    requires 'a' <= lower <= 'z'
    ensures Lower(c) == lower <==> Either(c, lower, lower - 'a' + 'A')
  {
  }

  lemma {:induction false} PrefixChar(text: string, at: nat, prefix: string, i: nat)
    requires StandsAt(text, at, prefix) && i < |prefix|
    ensures Lower(text[at..][i]) == prefix[i]
  {
    assert text[at..][i] == text[at + i];
  }

  lemma {:induction false} HttpStands(text: string, at: nat)
    requires at <= |text|
    ensures StandsAt(text, at, HTTP) <==> HttpAt(text[at..])
  {
    var s := text[at..];
    if 7 <= |s| {
      assert forall i :: 0 <= i < 7 ==> s[i] == text[at + i];
      LetterIs(s[0], 'h');
      LetterIs(s[1], 't');
      LetterIs(s[2], 't');
      LetterIs(s[3], 'p');
      if StandsAt(text, at, HTTP) {
        PrefixChar(text, at, HTTP, 0);
        PrefixChar(text, at, HTTP, 1);
        PrefixChar(text, at, HTTP, 2);
        PrefixChar(text, at, HTTP, 3);
        PrefixChar(text, at, HTTP, 4);
        PrefixChar(text, at, HTTP, 5);
        PrefixChar(text, at, HTTP, 6);
      }
    }
  }

  lemma {:induction false} HttpsStands(text: string, at: nat)
    requires at <= |text|
    ensures StandsAt(text, at, HTTPS) <==> HttpsAt(text[at..])
  {
    var s := text[at..];
    if 8 <= |s| {
      assert forall i :: 0 <= i < 8 ==> s[i] == text[at + i];
      LetterIs(s[0], 'h');
      LetterIs(s[1], 't');
      LetterIs(s[2], 't');
      LetterIs(s[3], 'p');
      LetterIs(s[4], 's');
      if StandsAt(text, at, HTTPS) {
        PrefixChar(text, at, HTTPS, 0);
        PrefixChar(text, at, HTTPS, 1);
        PrefixChar(text, at, HTTPS, 2);
        PrefixChar(text, at, HTTPS, 3);
        PrefixChar(text, at, HTTPS, 4);
        PrefixChar(text, at, HTTPS, 5);
        PrefixChar(text, at, HTTPS, 6);
        PrefixChar(text, at, HTTPS, 7);
      }
    }
  }

  // A place where a URL may start, and where what follows its scheme does.
  predicate StartsAt(text: string, at: nat) {
    && at <= |text| && (at == 0 || !Joins(text[at - 1]))
    && (HttpAt(text[at..]) || HttpsAt(text[at..]))
  }

  function AfterScheme(text: string, at: nat): (r: nat)
    requires StartsAt(text, at)
    ensures r <= |text|
  {
    at + if HttpsAt(text[at..]) then 8 else 7
  }

  lemma {:induction false} StartIs(text: string, at: nat)
    ensures Starts(text, at) <==> StartsAt(text, at)
    ensures Starts(text, at) ==> Authority(text, at) == AfterScheme(text, at)
  {
    if |text| < at {
      return;
    }
    HttpStands(text, at);
    HttpsStands(text, at);
    if 0 < at {
      JoinsIsSchemeByte(text[at - 1]);
    }
    hide StandsAt, HttpAt, HttpsAt, SchemeByte, Joins;
  }

  // Where the URL that follows a scheme is cut: nothing in it stops it, it ends well, and of the
  // places up to the first stop it is the last that does.
  ghost predicate CutRight(text: string, authority: nat, end: nat) {
    && authority <= end <= |text|
    && (forall i :: authority <= i < end ==> !Stops(text[i]))
    && (authority < end ==> EndsWell(text[authority..end]))
    && (forall e :: end < e <= |text| && (forall i :: authority <= i < e ==> !Stops(text[i])) ==>
          !EndsWell(text[authority..e]))
  }

  lemma {:induction false} LinkEndIs(text: string, at: nat)
    requires Starts(text, at)
    ensures CutRight(text, Authority(text, at), LinkEnd(text, at))
  {
    var authority, end := Authority(text, at), LinkEnd(text, at);
    var stop := RunEnd(text, authority);
    TrimsToTheLastGoodEnd(text, authority, stop);
    forall i | authority <= i < end
      ensures !Stops(text[i])
    {
      StopsIsTerminates(text[i]);
    }
    forall e | end < e <= |text| && (forall i :: authority <= i < e ==> !Stops(text[i]))
      ensures !EndsWell(text[authority..e])
    {
      if stop < e {
        StopsIsTerminates(text[stop]);
      }
      hide EndsWell;
    }
    hide Trimmed, RunEnd, EndsWell, Stops, TerminatesUrl;
  }

  // The links of a line: each starts where a URL may and is cut right, with something left of it;
  // and wherever a URL may start there is such a link, or one around it, or nothing would be left.
  lemma {:induction false} LinksAre(text: string, spans: seq<LinkSpan>)
    requires Exact(text, spans)
    ensures forall span <- spans ::
      StartsAt(text, span.begin) && AfterScheme(text, span.begin) < span.end
      && CutRight(text, AfterScheme(text, span.begin), span.end)
    ensures forall at: nat :: StartsAt(text, at) ==>
      || (exists span <- spans :: span.begin <= at < span.end)
      || CutRight(text, AfterScheme(text, at), AfterScheme(text, at))
  {
    forall span | span in spans
      ensures StartsAt(text, span.begin) && AfterScheme(text, span.begin) < span.end
      ensures CutRight(text, AfterScheme(text, span.begin), span.end)
    {
      assert IsLink(text, span);
      StartIs(text, span.begin);
      LinkEndIs(text, span.begin);
      hide StartsAt, AfterScheme, CutRight;
    }
    forall at: nat | StartsAt(text, at)
      ensures (exists span <- spans :: span.begin <= at < span.end)
           || CutRight(text, AfterScheme(text, at), AfterScheme(text, at))
    {
      StartIs(text, at);
      hide StartsAt, AfterScheme, CutRight;
      EveryStartIsExplained(text, spans, at);
      LinkEndIs(text, at);
      if LinkSpan(at, LinkEnd(text, at)) in spans {
        assert IsLink(text, LinkSpan(at, LinkEnd(text, at)));
      }
    }
    hide *;
  }
}
