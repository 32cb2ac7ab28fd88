/** From what was typed in the Server field to the URL the client dials, and back. */
module ServerAddress {
  import opened Basics

  datatype Refusal = NoAddress | SpacesInside | UnknownScheme | UnclosedBracket | JunkAfterBracket | NoHost | BadPort

  datatype Result<T> = Ok(value: T) | Refused(reason: Refusal)

  datatype Authority = Authority(host: string, port: string, rest: string)

  datatype Scheme = Scheme(typed: string, spoken: string)

  const SCHEMES := [Scheme("ws://", "ws://"), Scheme("wss://", "wss://"),
                    Scheme("http://", "ws://"), Scheme("https://", "wss://")]

  const DEFAULT_PORT := "8080"
  const LONGEST_PORT := 5
  const HIGHEST_PORT := 65535

  predicate Space(c: char) {
    c == ' ' || c == '\t' || c == '\r' || c == '\n'
  }

  predicate HasSpace(s: string) {
    exists c <- s :: Space(c)
  }

  function Trimmed(s: string): (t: string)
    ensures |t| <= |s|
    ensures t != "" ==> !Space(t[0]) && !Space(t[|t| - 1])
  {
    if s == "" then ""
    else if Space(s[0]) then Trimmed(s[1..])
    else if Space(s[|s| - 1]) then Trimmed(s[..|s| - 1])
    else s
  }

  predicate StartsIgnoringCase(s: string, prefix: string) {
    |prefix| <= |s| && forall i :: 0 <= i < |prefix| ==> Lower(s[i]) == Lower(prefix[i])
  }

  predicate Contains(s: string, mark: string) {
    mark <= s || (s != "" && Contains(s[1..], mark))
  }

  function Find(s: string, c: char): (n: nat)
    ensures n <= |s| && c !in s[..n] && (n < |s| ==> s[n] == c)
  {
    if s == "" || s[0] == c then 0 else 1 + Find(s[1..], c)
  }

  predicate EndsAuthority(c: char) {
    c == '/' || c == '?' || c == '#'
  }

  function FindRest(s: string): (n: nat)
    ensures n <= |s| && (n < |s| ==> EndsAuthority(s[n]))
    ensures forall i :: 0 <= i < n ==> !EndsAuthority(s[i])
  {
    if s == "" || EndsAuthority(s[0]) then 0 else 1 + FindRest(s[1..])
  }

  function CountOf(s: string, c: char): (n: nat)
    ensures 0 < n <==> c in s
  {
    if s == "" then 0 else (if s[0] == c then 1 else 0) + CountOf(s[1..], c)
  }

  predicate AllDigits(s: string) {
    s != "" && forall c <- s :: '0' <= c <= '9'
  }

  function DigitValue(c: char): nat {
    if '0' <= c <= '9' then c as nat - '0' as nat else 0
  }

  function Number(s: string): nat {
    if s == "" then 0 else Number(s[..|s| - 1]) * 10 + DigitValue(s[|s| - 1])
  }

  predicate GoodPort(port: string) {
    AllDigits(port) && |port| <= LONGEST_PORT && 1 <= Number(port) <= HIGHEST_PORT
  }

  function Checked(host: string, hasPort: bool, port: string, rest: string): Result<Authority> {
    if host == "" || host == "[]" then Refused(NoHost)
    else if hasPort && !GoodPort(port) then Refused(BadPort)
    else Ok(Authority(host, if hasPort then port else "", rest))
  }

  predicate Bracketed(s: string) {
    s != "" && s[0] == '['
  }

  function SplitAuthority(authority: string, rest: string): Result<Authority> {
    if Bracketed(authority) then
      var close := Find(authority, ']');
      if close == |authority| then Refused(UnclosedBracket)
      else
        var after := authority[close + 1..];
        if after == "" then Checked(authority[..close + 1], false, "", rest)
        else if after[0] != ':' then Refused(JunkAfterBracket)
        else Checked(authority[..close + 1], true, after[1..], rest)
    else if CountOf(authority, ':') == 0 then Checked(authority, false, "", rest)
    else if CountOf(authority, ':') == 1 then
      var colon := Find(authority, ':');
      assert authority[..colon] + authority[colon..] == authority;
      Checked(authority[..colon], true, authority[colon + 1..], rest)
    else Checked("[" + authority + "]", false, "", rest)
  }

  function Split(s: string): Result<Authority> {
    var n := FindRest(s);
    SplitAuthority(s[..n], s[n..])
  }

  // The first scheme of the table the address begins with, or its end.
  function SchemeIndex(s: string, from: nat): (i: nat)
    requires from <= |SCHEMES|
    ensures from <= i <= |SCHEMES|
    ensures i < |SCHEMES| ==> StartsIgnoringCase(s, SCHEMES[i].typed)
    ensures forall k :: from <= k < i ==> !StartsIgnoringCase(s, SCHEMES[k].typed)
    decreases |SCHEMES| - from
  {
    if from == |SCHEMES| || StartsIgnoringCase(s, SCHEMES[from].typed) then from else SchemeIndex(s, from + 1)
  }

  function PortPart(port: string): string {
    if port == "" then "" else ":" + port
  }

  function Url(scheme: string, a: Authority): string {
    scheme + (a.host + PortPart(a.port) + a.rest)
  }

  predicate Bare(address: string) {
    SchemeIndex(address, 0) == |SCHEMES|
  }

  function AfterScheme(address: string): string {
    var i := SchemeIndex(address, 0);
    if i == |SCHEMES| then address else address[|SCHEMES[i].typed|..]
  }

  function Spoken(address: string): (scheme: string)
    ensures scheme == "ws://" || scheme == "wss://"
  {
    var i := SchemeIndex(address, 0);
    if i == |SCHEMES| then "ws://" else SCHEMES[i].spoken
  }

  // A bare address is completed with the port the program knows; a URL is taken as written.
  function Completed(address: string, a: Authority): Authority {
    if Bare(address) && a.port == "" then a.(port := DEFAULT_PORT) else a
  }

  function Expand(typed: string): Result<string> {
    var address := Trimmed(typed);
    if address == "" then Refused(NoAddress)
    else if HasSpace(address) then Refused(SpacesInside)
    else if Bare(address) && Contains(address, "://") then Refused(UnknownScheme)
    else
      match Split(AfterScheme(address))
      case Refused(reason) => Refused(reason)
      case Ok(a) => Ok(Url(Spoken(address), Completed(address, a)))
  }

  function Display(url: string): string {
    if !("ws://" <= url) then url
    else
      match Split(url[5..])
      case Refused(_) => url
      case Ok(a) => if a.port == "" then url else url[5..]
  }

  // The expansion as coded, with its loop over the table.
  method ExpandServerAddress(typed: string) returns (r: Result<string>)
    ensures r == Expand(typed)
  {
    var address := Trimmed(typed);
    if address == "" {
      return Refused(NoAddress);
    }
    if HasSpace(address) {
      return Refused(SpacesInside);
    }
    hide Split, Contains, Trimmed, HasSpace;
    var i := 0;
    while i < |SCHEMES| && !StartsIgnoringCase(address, SCHEMES[i].typed)
      invariant 0 <= i <= |SCHEMES|
      invariant SchemeIndex(address, 0) == SchemeIndex(address, i)
    {
      i := i + 1;
    }
    assert SchemeIndex(address, 0) == i;
    var scheme, afterScheme := "", address;
    if i < |SCHEMES| {
      scheme, afterScheme := SCHEMES[i].spoken, address[|SCHEMES[i].typed|..];
      assert scheme != "";
    }
    hide SchemeIndex, StartsIgnoringCase;
    if scheme == "" && Contains(address, "://") {
      return Refused(UnknownScheme);
    }
    var parts := Split(afterScheme);
    if parts.Refused? {
      return Refused(parts.reason);
    }
    var authority := parts.value;
    if scheme == "" {
      scheme := "ws://";
      if authority.port == "" {
        authority := authority.(port := DEFAULT_PORT);
      }
    }
    var url := Printed(scheme, authority);
    return Ok(url);
  }

  method Printed(scheme: string, authority: Authority) returns (url: string)
    ensures url == Url(scheme, authority)
  {
    url := scheme + authority.host;
    if authority.port != "" {
      url := url + (":" + authority.port);
    }
    url := url + authority.rest;
  }

  // --- What a split takes apart, and puts back --------------------------------------------

  predicate Written(s: string) {
    forall c <- s :: !EndsAuthority(c)
  }

  // A host that can be split off again from whatever follows it.
  predicate CleanHost(h: string) {
    && h != "" && Written(h)
    && if Bracketed(h) then Find(h, ']') == |h| - 1 && h != "[]" else ':' !in h
  }

  predicate RestOf(rest: string) {
    rest == "" || EndsAuthority(rest[0])
  }

  predicate PortOf(port: string) {
    port == "" || GoodPort(port)
  }

  // An IPv6 address without its brackets, and a closing one inside it all the same.
  predicate StrayBracket(authority: string) {
    !Bracketed(authority) && 2 <= CountOf(authority, ':') && ']' in authority
  }

  lemma {:induction false} FindIn(a: string, c: char, b: string)
    requires c !in a && (b != "" ==> b[0] == c)
    ensures Find(a + b, c) == |a|
  {
    if a == "" {
      assert a + b == b;
    } else {
      assert (a + b)[1..] == a[1..] + b;
      FindIn(a[1..], c, b);
    }
  }

  lemma {:induction false} RestIn(a: string, rest: string)
    requires Written(a) && RestOf(rest)
    ensures FindRest(a + rest) == |a|
  {
    if a == "" {
      assert a + rest == rest;
    } else {
      assert (a + rest)[1..] == a[1..] + rest;
      RestIn(a[1..], rest);
    }
  }

  lemma {:induction false} CountIn(a: string, b: string, c: char)
    ensures CountOf(a + b, c) == CountOf(a, c) + CountOf(b, c)
  {
    if a == "" {
      assert a + b == b;
    } else {
      assert (a + b)[1..] == a[1..] + b;
      CountIn(a[1..], b, c);
    }
  }

  lemma {:induction false} PortIsPlain(port: string)
    requires PortOf(port)
    ensures Written(PortPart(port)) && ':' !in port && ']' !in port && CountOf(port, ':') == 0
  {
  }

  lemma {:induction false} Halves(a: string, b: string)
    ensures (a + b)[..|a|] == a && (a + b)[|a|..] == b
  {
  }

  // A bracketed authority, cut after its first closing bracket.
  lemma {:induction false} SplitBracketed(before: string, after: string, rest: string)
    requires Bracketed(before) && ']' !in before
    ensures SplitAuthority(before + ("]" + after), rest)
         == (if after == "" then Checked(before + "]", false, "", rest)
             else if after[0] != ':' then Refused(JunkAfterBracket)
             else Checked(before + "]", true, after[1..], rest))
  {
    var authority := before + ("]" + after);
    FindIn(before, ']', "]" + after);
    Halves(before + "]", after);
    assert authority == before + "]" + after;
    assert Bracketed(authority);
    hide Find, CountOf, Checked;
  }

  // A plain authority, cut at its one colon.
  lemma {:induction false} SplitAtColon(host: string, port: string, rest: string)
    requires host != "" && !Bracketed(host) && ':' !in host && ':' !in port
    ensures SplitAuthority(host + (":" + port), rest) == Checked(host, true, port, rest)
  {
    var authority := host + (":" + port);
    assert Find(authority, ':') == |host| by {
      FindIn(host, ':', ":" + port);
    }
    assert CountOf(authority, ':') == 1 by {
      CountIn(host, ":" + port, ':');
      CountIn(":", port, ':');
      assert CountOf(":", ':') == 1 + CountOf("", ':');
    }
    assert authority[..|host|] == host && authority[|host| + 1..] == port;
    assert !Bracketed(authority);
    hide Find, CountOf, Checked;
  }

  lemma {:induction false} RejoinedBracketed(host: string, port: string, rest: string)
    requires CleanHost(host) && Bracketed(host) && PortOf(port)
    ensures SplitAuthority(host + PortPart(port), rest) == Ok(Authority(host, port, rest))
  {
    BracketedHost(host);
    var before := host[..|host| - 1];
    SplitBracketed(before, PortPart(port), rest);
    hide SplitAuthority, CleanHost, GoodPort, Bracketed;
    assert before + ("]" + PortPart(port)) == before + "]" + PortPart(port);
    assert port != "" ==> PortPart(port)[1..] == port;
  }

  lemma {:induction false} RejoinedAuthority(host: string, port: string, rest: string)
    requires CleanHost(host) && PortOf(port)
    ensures SplitAuthority(host + PortPart(port), rest) == Ok(Authority(host, port, rest))
  {
    if Bracketed(host) {
      RejoinedBracketed(host, port, rest);
    } else if port == "" {
      assert host + PortPart(port) == host;
      hide Find;
    } else {
      PortIsPlain(port);
      SplitAtColon(host, port, rest);
      hide SplitAuthority, GoodPort;
    }
  }

  lemma {:induction false} BracketedHost(host: string)
    requires CleanHost(host) && Bracketed(host)
    ensures 2 < |host| && host == host[..|host| - 1] + "]" && ']' !in host[..|host| - 1]
    ensures Bracketed(host[..|host| - 1])
  {
    assert host[|host| - 1] == ']';
    assert |host| == 2 ==> host == "[]";
  }

  lemma {:induction false} Rejoined(host: string, port: string, rest: string)
    requires CleanHost(host) && PortOf(port) && RestOf(rest)
    ensures Split(host + PortPart(port) + rest) == Ok(Authority(host, port, rest))
  {
    PortIsPlain(port);
    var authority := host + PortPart(port);
    RestIn(authority, rest);
    assert (authority + rest)[..|authority|] == authority && (authority + rest)[|authority|..] == rest;
    hide GoodPort, FindRest, SplitAuthority, CleanHost;
    RejoinedAuthority(host, port, rest);
  }

  // The bracket inside is taken for the closing one, and what is left after it is no port.
  lemma {:induction false} StrayIsRefused(inside: string, port: string, rest: string)
    requires ']' in inside && Written(inside) && PortOf(port) && RestOf(rest)
    ensures Split("[" + inside + "]" + PortPart(port) + rest).Refused?
  {
    var authority := "[" + inside + "]" + PortPart(port);
    assert Written(authority) by {
      PortIsPlain(port);
    }
    RestIn(authority, rest);
    Halves(authority, rest);
    StrayAuthority(inside, port, rest);
    hide SplitAuthority, FindRest, Written, PortOf;
  }

  lemma {:induction false} StrayAuthority(inside: string, port: string, rest: string)
    requires ']' in inside
    ensures SplitAuthority("[" + inside + "]" + PortPart(port), rest).Refused?
  {
    hide SplitAuthority;
    var x, y := FirstOf(inside, ']');
    Regroup("[", x, "]", y, "]" + PortPart(port));
    assert "[" + inside + "]" + PortPart(port) == "[" + inside + ("]" + PortPart(port));
    StrayTail("[" + x, y, PortPart(port), rest);
  }

  lemma {:induction false} FirstOf(s: string, c: char) returns (x: string, y: string)
    requires c in s
    ensures s == x + ([c] + y) && c !in x
  {
    if s[0] == c {
      x, y := "", s[1..];
    } else {
      x, y := FirstOf(s[1..], c);
      x := [s[0]] + x;
      assert s == [s[0]] + s[1..];
    }
  }

  lemma {:induction false} StrayTail(before: string, y: string, z: string, rest: string)
    requires Bracketed(before) && ']' !in before
    ensures SplitAuthority(before + ("]" + (y + ("]" + z))), rest).Refused?
  {
    var after := y + ("]" + z);
    SplitBracketed(before, after, rest);
    hide SplitAuthority;
    assert after[|y|] == ']';
    if after[0] == ':' {
      assert ']' == after[1..][|y| - 1];
      assert ']' in after[1..];
    }
  }

  lemma {:induction false} Regroup(a: string, b: string, c: string, d: string, e: string)
    ensures a + (b + (c + d)) + e == a + b + (c + (d + e))
  {
  }

  // What a split yields: the rest as it stood, a usable port or none, and a clean host, but for
  // the stray bracket.
  lemma {:induction false} SplitYields(s: string)
    requires Split(s).Ok?
    ensures var a, authority := Split(s).value, s[..FindRest(s)];
      && RestOf(a.rest) && PortOf(a.port) && Written(authority)
      && (if StrayBracket(authority) then a.host == "[" + authority + "]" && a.port == "" else CleanHost(a.host))
      && (forall c :: c in a.host || c in a.port || c in a.rest ==> c in s || c == '[' || c == ']')
  {
    var n := FindRest(s);
    var authority, rest := s[..n], s[n..];
    assert s == authority + rest;
    assert Split(s) == SplitAuthority(authority, rest);
    hide GoodPort, FindRest, Split;
    AuthorityYields(authority, rest);
  }

  lemma {:induction false} AuthorityYields(authority: string, rest: string)
    requires Written(authority) && SplitAuthority(authority, rest).Ok?
    ensures var a := SplitAuthority(authority, rest).value;
      && a.rest == rest && PortOf(a.port)
      && (if StrayBracket(authority) then a.host == "[" + authority + "]" && a.port == "" else CleanHost(a.host))
      && (forall c :: c in a.host || c in a.port ==> c in authority || c == '[' || c == ']')
  {
    hide GoodPort;
    var a := SplitAuthority(authority, rest).value;
    if Bracketed(authority) {
      var close := Find(authority, ']');
      assert a.host == authority[..close] + "]";
      FindIn(authority[..close], ']', "]");
    } else if CountOf(authority, ':') == 1 {
      assert a.host == authority[..Find(authority, ':')];
    } else if 2 <= CountOf(authority, ':') {
      if ']' !in authority {
        assert a.host == ("[" + authority) + "]";
        FindIn("[" + authority, ']', "]");
      }
    }
  }

  // --- Round trips ------------------------------------------------------------------------

  // What somebody typed, taken apart and completed.
  function Parts(typed: string): Authority
    requires Expand(typed).Ok?
  {
    Completed(Trimmed(typed), Split(AfterScheme(Trimmed(typed))).value)
  }

  // The host was typed without brackets, has the colons of an IPv6 address, and a `]` in it.
  predicate TypedStray(typed: string) {
    var s := AfterScheme(Trimmed(typed));
    StrayBracket(s[..FindRest(s)])
  }

  // A ws:// URL with a port, and another URL in its path.
  predicate NestsAUrl(typed: string)
    requires Expand(typed).Ok?
  {
    Spoken(Trimmed(typed)) == "ws://" && Parts(typed).port != "" && Contains(Parts(typed).rest, "://")
  }

  lemma {:induction false} DefaultPortIsGood()
    ensures GoodPort(DEFAULT_PORT)
  {
    assert DEFAULT_PORT[..3] == "808" && "808"[..2] == "80" && "80"[..1] == "8" && "8"[..0] == "";
    assert Number("8") == 8 && Number("80") == 80 && Number("808") == 808;
  }

  // The URL expand returns: a spoken scheme, then what a split can take apart again, unless the
  // bracket was stray; and no spaces.
  ghost predicate WellWritten(typed: string)
    requires Expand(typed).Ok?
  {
    var a := Parts(typed);
    && RestOf(a.rest) && PortOf(a.port)
    && (if TypedStray(typed) then
          exists inside :: a.host == "[" + inside + "]" && ']' in inside && Written(inside)
        else CleanHost(a.host))
  }

  function Body(a: Authority): string {
    a.host + PortPart(a.port) + a.rest
  }

  lemma {:induction false} ExpandedIsWellWritten(typed: string)
    requires Expand(typed).Ok?
    ensures WellWritten(typed)
    ensures Expand(typed).value == Spoken(Trimmed(typed)) + Body(Parts(typed))
  {
    hide Split, SchemeIndex, GoodPort, CleanHost, Trimmed, FindRest, Contains, HasSpace;
    DefaultPortIsGood();
    SplitYields(AfterScheme(Trimmed(typed)));
  }

  lemma {:induction false} ExpandedHasNoSpace(typed: string)
    requires Expand(typed).Ok?
    ensures !HasSpace(Body(Parts(typed)))
  {
    var address := Trimmed(typed);
    hide Split, SchemeIndex, GoodPort, CleanHost, Trimmed, FindRest, Contains, StrayBracket;
    SplitYields(AfterScheme(address));
    var a, t := Parts(typed), Body(Parts(typed));
    var b := Split(AfterScheme(address)).value;
    forall c | c in t
      ensures !Space(c)
    {
      assert c in a.host || c in PortPart(a.port) || c in a.rest;
      assert c in b.host || c in b.port || c in b.rest || c in DEFAULT_PORT || c == ':';
      assert c in AfterScheme(address) ==> c in address;
    }
  }

  lemma {:induction false} TrimmedIsItself(s: string)
    requires !HasSpace(s)
    ensures Trimmed(s) == s
  {
  }

  // A URL that begins with a scheme the client speaks is recognised as one, and kept.
  lemma {:induction false} SpokenIsRecognised(scheme: string, body: string)
    requires scheme == "ws://" || scheme == "wss://"
    ensures !Bare(scheme + body) && AfterScheme(scheme + body) == body && Spoken(scheme + body) == scheme
  {
    var u := scheme + body;
    Halves(scheme, body);
    assert forall i :: 0 <= i < |scheme| ==> u[i] == scheme[i];
    if scheme == "ws://" {
      assert StartsIgnoringCase(u, SCHEMES[0].typed);
      assert SchemeIndex(u, 0) == 0;
    } else {
      assert Lower(u[2]) == 's' != Lower(SCHEMES[0].typed[2]);
      assert StartsIgnoringCase(u, SCHEMES[1].typed);
      assert SchemeIndex(u, 0) == SchemeIndex(u, 1) == 1;
    }
  }

  lemma {:induction false} UrlHasNoSpace(scheme: string, body: string)
    requires (scheme == "ws://" || scheme == "wss://") && !HasSpace(body)
    ensures !HasSpace(scheme + body)
  {
    assert !HasSpace(scheme);
    forall c | c in scheme + body
      ensures !Space(c)
    {
      assert c in scheme || c in body;
    }
  }

  // Expanding a URL the client speaks is splitting what follows its scheme.
  lemma {:induction false} ExpandOfUrl(scheme: string, body: string)
    requires (scheme == "ws://" || scheme == "wss://") && !HasSpace(body)
    ensures Expand(scheme + body) == (match Split(body) case Refused(reason) => Refused(reason) case Ok(a) => Ok(Url(scheme, a)))
  {
    SpokenIsRecognised(scheme, body);
    UrlHasNoSpace(scheme, body);
    TrimmedIsItself(scheme + body);
    hide Split, Trimmed, HasSpace, SchemeIndex, AfterScheme, Spoken, Contains, Url;
    assert scheme + body != "";
  }

  // The URL expand returned is split again exactly when no bracket in it was stray.
  lemma {:induction false} SplitOfExpanded(typed: string)
    requires Expand(typed).Ok?
    ensures if TypedStray(typed) then Split(Body(Parts(typed))).Refused?
            else Split(Body(Parts(typed))) == Ok(Parts(typed))
  {
    ExpandedIsWellWritten(typed);
    hide Split, Parts, GoodPort, CleanHost, TypedStray, Expand;
    var a := Parts(typed);
    if TypedStray(typed) {
      var inside :| a.host == "[" + inside + "]" && ']' in inside && Written(inside);
      StrayIsRefused(inside, a.port, a.rest);
    } else {
      Rejoined(a.host, a.port, a.rest);
    }
  }

  // What expand returns expands to itself, exactly when the host had no stray bracket.
  lemma {:induction false} ExpandIsIdempotentExactlyWhen(typed: string)
    requires Expand(typed).Ok?
    ensures Expand(Expand(typed).value) == Expand(typed) <==> !TypedStray(typed)
  {
    ExpandedIsWellWritten(typed);
    ExpandedHasNoSpace(typed);
    ExpandOfUrl(Spoken(Trimmed(typed)), Body(Parts(typed)));
    SplitOfExpanded(typed);
    hide Split, Parts, Trimmed, Spoken, TypedStray, HasSpace, SchemeIndex, Contains, AfterScheme;
  }

  // --- The field shows the address without its scheme ---------------------------------------

  lemma {:induction false} ContainsIn(a: string, b: string, mark: string)
    requires mark != "" && forall i :: 0 <= i < |a| ==> !(mark <= (a + b)[i..])
    ensures Contains(a + b, mark) == Contains(b, mark)
  {
    if a == "" {
      assert a + b == b;
    } else {
      assert (a + b)[0..] == a + b;
      assert (a + b)[1..] == a[1..] + b;
      forall i | 0 <= i < |a[1..]|
        ensures !(mark <= (a[1..] + b)[i..])
      {
        assert (a[1..] + b)[i..] == (a + b)[i + 1..];
      }
      ContainsIn(a[1..], b, mark);
    }
  }

  // The first slash of an address with a port comes after a digit, never after a colon.
  lemma {:induction false} NoColonSlash(host: string, port: string, rest: string, i: nat)
    requires Written(host) && GoodPort(port) && RestOf(rest)
    requires i < |host + PortPart(port)|
    ensures !(":/" <= (host + PortPart(port) + rest)[i..])
  {
    PortIsPlain(port);
    var authority := host + PortPart(port);
    var t := authority + rest;
    assert PortPart(port)[|port|] == port[|port| - 1];
    assert authority[|authority| - 1] == port[|port| - 1];
    assert authority[|authority| - 1] != ':';
    assert t[i..][0] == t[i] && (i + 1 < |t| ==> t[i..][1] == t[i + 1]);
    if i + 1 < |authority| {
      assert t[i + 1] == authority[i + 1];
      assert authority[i + 1] in host || authority[i + 1] in PortPart(port);
    }
  }

  lemma {:induction false} NestedOnlyInTheRest(a: Authority)
    requires Written(a.host) && GoodPort(a.port) && RestOf(a.rest)
    ensures Contains(Body(a), "://") == Contains(a.rest, "://")
  {
    var authority := a.host + PortPart(a.port);
    forall i | 0 <= i < |authority|
      ensures !("://" <= (authority + a.rest)[i..])
    {
      NoColonSlash(a.host, a.port, a.rest, i);
    }
    ContainsIn(authority, a.rest, "://");
  }

  // No scheme can be read off the front of an address with a port: its first slash follows a digit.
  lemma {:induction false} AddressWithPortIsBare(a: Authority)
    requires Written(a.host) && GoodPort(a.port) && RestOf(a.rest)
    ensures Bare(Body(a)) && AfterScheme(Body(a)) == Body(a) && Spoken(Body(a)) == "ws://"
  {
    forall k | 0 <= k < |SCHEMES|
      ensures !StartsIgnoringCase(Body(a), SCHEMES[k].typed)
    {
      NoSchemeInFront(a, k);
    }
    assert SchemeIndex(Body(a), 0) == |SCHEMES|;
  }

  lemma {:induction false} ColonSlash(t: string, k: nat)
    requires k < |SCHEMES|
    ensures StartsIgnoringCase(t, SCHEMES[k].typed) ==>
      |SCHEMES[k].typed| <= |t| && ":/" <= t[|SCHEMES[k].typed| - 3..]
  {
    var scheme := SCHEMES[k].typed;
    var colon := |scheme| - 3;
    assert Lower(scheme[colon]) == ':' && Lower(scheme[colon + 1]) == '/';
    if StartsIgnoringCase(t, scheme) {
      assert Lower(t[colon]) == ':' && Lower(t[colon + 1]) == '/';
      assert t[colon..][0] == ':' && t[colon..][1] == '/';
    }
  }

  lemma {:induction false} NoSchemeInFront(a: Authority, k: nat)
    requires Written(a.host) && GoodPort(a.port) && RestOf(a.rest) && k < |SCHEMES|
    ensures !StartsIgnoringCase(Body(a), SCHEMES[k].typed)
  {
    var t, authority, scheme := Body(a), a.host + PortPart(a.port), SCHEMES[k].typed;
    ColonSlash(t, k);
    if |scheme| - 3 < |authority| {
      NoColonSlash(a.host, a.port, a.rest, |scheme| - 3);
    } else {
      assert !EndsAuthority(Lower(scheme[|authority|]));
      assert |authority| < |t| ==> t[|authority|] == a.rest[0];
    }
  }

  lemma {:induction false} ExpandOfAddress(a: Authority)
    requires CleanHost(a.host) && GoodPort(a.port) && RestOf(a.rest) && !HasSpace(Body(a))
    ensures Expand(Body(a)) == if Contains(a.rest, "://") then Refused(UnknownScheme) else Ok("ws://" + Body(a))
  {
    AddressWithPortIsBare(a);
    NestedOnlyInTheRest(a);
    TrimmedIsItself(Body(a));
    Rejoined(a.host, a.port, a.rest);
    assert Body(a) != "";
    hide Split, Trimmed, HasSpace, SchemeIndex, AfterScheme, Spoken, Contains, GoodPort, CleanHost;
    assert a.port != "";
  }

  // Only the scheme of a plain address with a port comes off.
  lemma {:induction false} DisplayIs(typed: string)
    requires Expand(typed).Ok?
    ensures Display(Expand(typed).value) ==
      if Spoken(Trimmed(typed)) == "ws://" && !TypedStray(typed) && Parts(typed).port != ""
      then Body(Parts(typed)) else Expand(typed).value
  {
    ExpandedIsWellWritten(typed);
    SplitOfExpanded(typed);
    DisplayOfUrl(Spoken(Trimmed(typed)), Body(Parts(typed)));
    hide Split, Parts, Trimmed, Spoken, TypedStray, SchemeIndex, Expand, Body, WellWritten, Display;
  }

  lemma {:induction false} DisplayOfUrl(scheme: string, body: string)
    requires scheme == "ws://" || scheme == "wss://"
    ensures Display(scheme + body) ==
      if scheme == "ws://" && Split(body).Ok? && Split(body).value.port != "" then body else scheme + body
  {
    hide Split;
    Halves(scheme, body);
    assert scheme == "wss://" ==> (scheme + body)[2] == 's';
  }

  // Whatever the field is given comes back from it unchanged, exactly when no bracket was stray
  // and no second URL hides behind a plain address with a port.
  lemma {:induction false} FieldRoundTripsExactlyWhen(typed: string)
    requires Expand(typed).Ok?
    ensures Expand(Display(Expand(typed).value)) == Expand(typed) <==> !TypedStray(typed) && !NestsAUrl(typed)
  {
    DisplayIs(typed);
    ExpandIsIdempotentExactlyWhen(typed);
    ExpandedIsWellWritten(typed);
    if Spoken(Trimmed(typed)) == "ws://" && !TypedStray(typed) && Parts(typed).port != "" {
      ExpandedHasNoSpace(typed);
      ExpandOfAddress(Parts(typed));
    }
    hide Expand, Display, Parts, Trimmed, Spoken, TypedStray, Contains, Body;
  }

  // A URL in the path of another: with its scheme off, the field reads the inner one's as its own.
  lemma {:induction false} NestedUrlIsRefusedBack(host: string, port: string, rest: string)
    requires CleanHost(host) && GoodPort(port) && RestOf(rest) && Contains(rest, "://")
    requires !HasSpace(host + PortPart(port) + rest)
    ensures var body := host + PortPart(port) + rest;
      && Expand("ws://" + body) == Ok("ws://" + body)
      && Display("ws://" + body) == body
      && Expand(body) == Refused(UnknownScheme)
  {
    var a := Authority(host, port, rest);
    assert port != "";
    Rejoined(host, port, rest);
    ExpandOfUrl("ws://", Body(a));
    DisplayOfUrl("ws://", Body(a));
    ExpandOfAddress(a);
    hide Expand, Display, Split, Contains, HasSpace, CleanHost, GoodPort, RestOf, PortPart;
    assert Url("ws://", a) == "ws://" + Body(a);
  }

  lemma {:induction false} PathWithAUrl() returns (host: string, port: string, rest: string)
    ensures host == "h" && port == "1" && rest == "/x://y"
    ensures CleanHost(host) && GoodPort(port) && RestOf(rest) && Contains(rest, "://")
    ensures !HasSpace(host + PortPart(port) + rest)
  {
    host, port, rest := "h", "1", "/x://y";
    assert "1"[..0] == "" && Number("1") == 1;
    assert rest[1..] == "x://y" && rest[1..][1..] == "://y";
    assert Contains("://y", "://") && Contains("x://y", "://");
    hide Contains;
    assert host + PortPart(port) + rest == "h:1/x://y";
  }

  // --- What the field promises --------------------------------------------------------------

  // A host typed plain gets the scheme, and the default port unless it brought its own.
  lemma {:induction false} PlainAddressIsCompleted(host: string, port: string)
    requires CleanHost(host) && PortOf(port) && !HasSpace(host + PortPart(port))
    ensures Expand(host + PortPart(port))
         == Ok("ws://" + host + ":" + if port == "" then DEFAULT_PORT else port)
  {
    var address := host + PortPart(port);
    assert Written(address) && address != "" by {
      PortIsPlain(port);
    }
    TrimmedIsItself(address);
    NoSlashIsBare(address);
    assert Split(address) == Ok(Authority(host, port, "")) by {
      Rejoined(host, port, "");
      assert address + "" == address;
    }
    hide Split, Trimmed, HasSpace, SchemeIndex, Contains, GoodPort, CleanHost, PortOf, Written;
    var a := Completed(address, Authority(host, port, ""));
    assert Url("ws://", a) == "ws://" + host + ":" + a.port by {
      hide *;
      WithPort(host, a.port);
    }
  }

  lemma {:induction false} WithPort(host: string, port: string)
    requires port != ""
    ensures Url("ws://", Authority(host, port, "")) == "ws://" + host + ":" + port
  {
  }

  lemma {:induction false} NoSlashIsBare(s: string)
    requires Written(s)
    ensures Bare(s) && AfterScheme(s) == s && Spoken(s) == "ws://" && !Contains(s, "://")
  {
    forall k | 0 <= k < |SCHEMES|
      ensures !StartsIgnoringCase(s, SCHEMES[k].typed)
    {
      ColonSlash(s, k);
      NoMark(s, |SCHEMES[k].typed| - 3);
    }
    assert SchemeIndex(s, 0) == |SCHEMES|;
    NotContained(s);
  }

  lemma {:induction false} NoMark(s: string, i: nat)
    requires Written(s)
    ensures i <= |s| ==> !(":/" <= s[i..])
  {
    assert i + 1 < |s| ==> !EndsAuthority(s[i + 1]) && s[i..][1] == s[i + 1];
  }

  lemma {:induction false} NotContained(s: string)
    requires Written(s)
    ensures !Contains(s, "://")
  {
    assert 1 < |s| ==> !EndsAuthority(s[1]);
    if s != "" {
      NotContained(s[1..]);
    }
  }

  // Two colons and no brackets read as an IPv6 address, whole: brackets around it, default port after.
  lemma {:induction false} BareIpv6IsBracketed(address: string)
    requires Written(address) && !HasSpace(address) && !Bracketed(address)
    requires 2 <= CountOf(address, ':')
    ensures Expand(address) == Ok("ws://[" + address + "]:8080")
  {
    TrimmedIsItself(address);
    NoSlashIsBare(address);
    RestIn(address, "");
    assert address + "" == address && address[..|address|] == address && address[|address|..] == "";
    assert SplitAuthority(address, "") == Ok(Authority("[" + address + "]", "", ""));
    hide SplitAuthority, FindRest, Trimmed, HasSpace, SchemeIndex, Contains, GoodPort, CountOf;
    var a := Authority("[" + address + "]", DEFAULT_PORT, "");
    assert Url("ws://", a) == "ws://[" + address + "]:8080";
  }

  // With a bracket inside, the URL it becomes does not come back as itself.
  lemma {:induction false} StrayBracketIsLost(address: string)
    requires Written(address) && !HasSpace(address) && StrayBracket(address)
    ensures Expand(address) == Ok("ws://[" + address + "]:8080")
    ensures Expand("ws://[" + address + "]:8080") != Expand(address)
  {
    BareIpv6IsBracketed(address);
    ExpandIsIdempotentExactlyWhen(address);
    TrimmedIsItself(address);
    NoSlashIsBare(address);
    RestIn(address, "");
    assert address + "" == address && address[..|address|] == address;
    hide Expand, Trimmed, AfterScheme, FindRest, StrayBracket, HasSpace, Written;
  }

  lemma {:induction false} StrayAddress() returns (address: string)
    ensures address == "a]:b:c"
    ensures Written(address) && !HasSpace(address) && StrayBracket(address)
  {
    address := "a]:b:c";
    assert address[1] == ']' && address[2..][0] == ':';
    assert CountOf(":c", ':') == 1 + CountOf("c", ':');
    assert "b:c"[1..] == ":c" && ":b:c"[1..] == "b:c" && "]:b:c"[1..] == ":b:c" && address[1..] == "]:b:c";
  }

  // A browser's address means the same as the client's own.
  lemma {:induction false} BrowserSchemeIsTranslated(body: string)
    requires !HasSpace(body)
    ensures Expand("http://" + body) == Expand("ws://" + body)
    ensures Expand("https://" + body) == Expand("wss://" + body)
  {
    ExpandOfUrl("ws://", body);
    ExpandOfUrl("wss://", body);
    BrowserIsRecognised("http://", 2, body);
    BrowserIsRecognised("https://", 3, body);
    ExpandRecognised("http://" + body, body, "ws://");
    ExpandRecognised("https://" + body, body, "wss://");
    hide Expand, Split;
  }

  lemma {:induction false} ExpandRecognised(address: string, body: string, scheme: string)
    requires address != "" && !HasSpace(address) && !Bare(address)
    requires AfterScheme(address) == body && Spoken(address) == scheme
    ensures Expand(address) == (match Split(body) case Refused(reason) => Refused(reason) case Ok(a) => Ok(Url(scheme, a)))
  {
    TrimmedIsItself(address);
    hide Split, Trimmed, HasSpace, SchemeIndex, AfterScheme, Spoken, Contains, Url;
  }

  lemma {:induction false} BrowserIsRecognised(scheme: string, k: nat, body: string)
    requires 2 <= k < |SCHEMES| && scheme == SCHEMES[k].typed && !HasSpace(body)
    ensures !Bare(scheme + body) && AfterScheme(scheme + body) == body && Spoken(scheme + body) == SCHEMES[k].spoken
    ensures !HasSpace(scheme + body)
  {
    var u := scheme + body;
    Halves(scheme, body);
    assert !HasSpace(scheme);
    assert forall c :: c in u ==> c in scheme || c in body;
    assert forall i :: 0 <= i < |scheme| ==> u[i] == scheme[i];
    assert u[0] == 'h' && Lower(SCHEMES[0].typed[0]) == 'w' == Lower(SCHEMES[1].typed[0]);
    assert !StartsIgnoringCase(u, SCHEMES[0].typed) && !StartsIgnoringCase(u, SCHEMES[1].typed);
    assert u[4] == scheme[4];
    assert k == 3 ==> u[4] == 's' && Lower(SCHEMES[2].typed[4]) == ':';
    assert k == 3 ==> !StartsIgnoringCase(u, SCHEMES[2].typed);
    assert StartsIgnoringCase(u, SCHEMES[k].typed);
    hide StartsIgnoringCase;
    assert SchemeIndex(u, 0) == SchemeIndex(u, 1) == SchemeIndex(u, 2);
    assert SchemeIndex(u, k) == k;
  }
}
