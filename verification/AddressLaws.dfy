/** The Server field on the text typed into it: what is ignored, and what is refused and why. */
module AddressLaws {
  import opened Basics
  import opened ServerAddress

  // --- White space ----------------------------------------------------------------------------

  predicate Blank(s: string) {
    forall c <- s :: c in " \t\r\n"
  }

  lemma {:induction false} BlankIsSpace(c: char)
    ensures c in " \t\r\n" <==> Space(c)
  {
  }

  lemma {:induction false} TrimsFront(c: char, s: string)
    requires Space(c)
    ensures Trimmed([c] + s) == Trimmed(s)
  {
    assert ([c] + s)[1..] == s;
  }

  lemma {:induction false} TrimsBack(s: string, c: char)
    requires Space(c)
    ensures Trimmed(s + [c]) == Trimmed(s)
    decreases |s|
  {
    if s == "" {
      assert s + [c] == [c] && [c][1..] == "";
    } else if Space(s[0]) {
      assert (s + [c])[1..] == s[1..] + [c];
      TrimsBack(s[1..], c);
    } else {
      assert (s + [c])[..|s|] == s;
    }
  }

  lemma {:induction false} BlanksBefore(before: string, s: string)
    requires Blank(before)
    ensures Trimmed(before + s) == Trimmed(s)
  {
    if before == "" {
      assert before + s == s;
    } else {
      BlankIsSpace(before[0]);
      BlanksBefore(before[1..], s);
      TrimsFront(before[0], before[1..] + s);
      hide Trimmed;
      assert before + s == [before[0]] + (before[1..] + s);
    }
  }

  lemma {:induction false} BlanksAfter(s: string, after: string)
    requires Blank(after)
    ensures Trimmed(s + after) == Trimmed(s)
  {
    if after == "" {
      assert s + after == s;
    } else {
      var front, last := after[..|after| - 1], after[|after| - 1];
      BlankIsSpace(last);
      BlanksAfter(s, front);
      TrimsBack(s + front, last);
      hide Trimmed;
      assert s + after == (s + front) + [last];
    }
  }

  // White space around an address changes nothing; an address of nothing else is none.
  lemma {:induction false} BlanksAroundAreIgnored(before: string, typed: string, after: string)
    requires Blank(before) && Blank(after)
    ensures Expand(before + typed + after) == Expand(typed)
    ensures Expand(before) == Refused(NoAddress)
  {
    BlanksAfter(before + typed, after);
    BlanksBefore(before, typed);
    BlanksBefore(before, "");
    assert before + "" == before && Trimmed("") == "";
    hide Trimmed, Split, Contains, SchemeIndex, Blank;
  }

  // Between two parts of an address it is refused.
  lemma {:induction false} BlankInsideIsRefused(a: string, c: char, b: string)
    requires a != "" && b != "" && c in " \t\r\n"
    requires !HasSpace(a) && !HasSpace(b)
    ensures Expand(a + [c] + b) == Refused(SpacesInside)
  {
    var s := a + [c] + b;
    BlankIsSpace(c);
    assert a[0] in a && b[|b| - 1] in b && !Space(a[0]) && !Space(b[|b| - 1]);
    assert s[0] == a[0] && s[|s| - 1] == b[|b| - 1] && s[|a|] == c && c in s;
    assert Trimmed(s) == s && HasSpace(s);
  }

  // --- Ports ----------------------------------------------------------------------------------

  function TenTo(n: nat): nat {
    if n == 0 then 1 else 10 * TenTo(n - 1)
  }

  predicate Digits(s: string) {
    forall i :: 0 <= i < |s| ==> 48 <= s[i] as int <= 57
  }

  // The number a run of digits writes, most significant first.
  function Decimal(s: string): int
    requires Digits(s)
  {
    if s == "" then 0 else (s[0] as int - 48) * TenTo(|s| - 1) + Decimal(s[1..])
  }

  predicate IsPort(s: string) {
    && 1 <= |s| <= 5 && Digits(s)
    && 1 <= Decimal(s) <= 65535
  }

  lemma {:induction false} DecimalLast(s: string, c: char)
    requires Digits(s) && '0' <= c <= '9'
    ensures Decimal(s + [c]) == Decimal(s) * 10 + (c as int - 48)
    decreases |s|
  {
    if s == "" {
      assert s + [c] == [c] && [c][1..] == "";
      assert TenTo(0) == 1;
    } else {
      assert (s + [c])[1..] == s[1..] + [c];
      DecimalLast(s[1..], c);
      var d, t := s[0] as int - 48, TenTo(|s| - 1);
      assert TenTo(|s|) == 10 * t;
      assert d * (10 * t) == (d * t) * 10;
      hide TenTo;
    }
  }

  lemma {:induction false} NumberIsDecimal(s: string)
    requires Digits(s)
    ensures Number(s) == Decimal(s)
  {
    if s != "" {
      var front, last := s[..|s| - 1], s[|s| - 1];
      NumberIsDecimal(front);
      DecimalLast(front, last);
      assert s == front + [last];
      hide Decimal;
    }
  }

  lemma {:induction false} GoodPortIsPort(s: string)
    ensures GoodPort(s) <==> IsPort(s)
  {
    assert AllDigits(s) ==> forall i :: 0 <= i < |s| ==> s[i] in s;
    if Digits(s) {
      NumberIsDecimal(s);
    }
    hide Number, Decimal;
  }

  // After a host, a colon and what is no number from 1 to 65535 in five digits is refused, and
  // nothing else is refused for its port.
  lemma {:induction false} PortIsRefusedExactlyWhen(host: string, port: string)
    requires host != "" && host[0] != '[' && ':' !in host && ':' !in port
    requires Written(host) && Written(port) && !HasSpace(host) && !HasSpace(port)
    ensures Expand(host + (":" + port)) ==
      if IsPort(port) then Ok("ws://" + host + (":" + port)) else Refused(BadPort)
  {
    var typed := host + (":" + port);
    assert forall c <- typed :: c in host || c == ':' || c in port;
    TrimmedIsItself(typed);
    NoSlashIsBare(typed);
    SplitAtColon(host, port, "");
    RestIn(typed, "");
    assert typed + "" == typed && typed[..|typed|] == typed && typed[|typed|..] == "";
    GoodPortIsPort(port);
    hide SplitAuthority, FindRest, Trimmed, HasSpace, SchemeIndex, Contains, GoodPort, IsPort, Written;
    assert host != "[]" && typed != "";
    if IsPort(port) {
      WrittenOut(host, port);
    }
  }

  lemma {:induction false} WrittenOut(host: string, port: string)
    requires port != ""
    ensures Url("ws://", Authority(host, port, "")) == "ws://" + host + (":" + port)
  {
  }

  // --- Brackets and hosts -----------------------------------------------------------------------

  lemma {:induction false} BareAddressSplits(typed: string)
    requires typed != "" && Written(typed) && !HasSpace(typed)
    ensures Expand(typed) ==
      match SplitAuthority(typed, "")
      case Refused(reason) => Refused(reason)
      case Ok(a) => Ok(Url("ws://", if a.port == "" then a.(port := "8080") else a))
  {
    TrimmedIsItself(typed);
    NoSlashIsBare(typed);
    RestIn(typed, "");
    assert typed + "" == typed && typed[..|typed|] == typed && typed[|typed|..] == "";
    hide SplitAuthority, FindRest, Trimmed, HasSpace, SchemeIndex, Contains, Written;
  }

  lemma {:induction false} NotThere(s: string, c: char)
    requires c !in s
    ensures Find(s, c) == |s|
  {
    FindIn(s, c, "");
    assert s + "" == s;
  }

  // A bracket that is not closed, one that is closed before something that is no port, nothing
  // between a pair of them, and nothing before a port are each refused for what they are.
  lemma {:induction false} UnclosedIsRefused(inside: string)
    requires ']' !in inside && Written(inside) && !HasSpace(inside)
    ensures Expand("[" + inside) == Refused(UnclosedBracket)
  {
    var typed := "[" + inside;
    assert forall c <- typed :: c == '[' || c in inside;
    BareAddressSplits(typed);
    NotThere(typed, ']');
    hide Expand, Find;
  }

  lemma {:induction false} JunkIsRefused(inside: string, junk: string)
    requires ']' !in inside && Written(inside) && !HasSpace(inside)
    requires junk != "" && junk[0] != ':' && Written(junk) && !HasSpace(junk)
    ensures Expand("[" + inside + ("]" + junk)) == Refused(JunkAfterBracket)
  {
    var typed := "[" + inside + ("]" + junk);
    assert forall c <- typed :: c in "[]" || c in inside || c in junk;
    BareAddressSplits(typed);
    SplitBracketed("[" + inside, junk, "");
    hide Expand, SplitAuthority;
  }

  lemma {:induction false} NoHostIsRefused(port: string)
    requires ':' !in port && Written(port) && !HasSpace(port)
    ensures Expand(":" + port) == Refused(NoHost)
  {
    var typed := ":" + port;
    assert forall c <- typed :: c == ':' || c in port;
    BareAddressSplits(typed);
    assert CountOf(typed, ':') == 1 by {
      CountIn(":", port, ':');
      assert CountOf(":", ':') == 1 + CountOf("", ':');
    }
    assert Find(typed, ':') == 0 && typed[..0] == "";
    hide Expand, Find, CountOf, GoodPort;
  }

  lemma {:induction false} EmptyBracketsAreRefused()
    ensures Expand("[]") == Refused(NoHost)
  {
    BareAddressSplits("[]");
    FindIn("[", ']', "]");
    assert "[" + "]" == "[]" && "[]"[..2] == "[]" && "[]"[2..] == "";
    hide Expand, Find, GoodPort;
  }

  // --- Schemes ------------------------------------------------------------------------------

  // The letters of a scheme in either case.
  predicate Recased(t: string, scheme: string) {
    && |t| == |scheme|
    && forall i :: 0 <= i < |t| ==>
        t[i] == scheme[i] || (97 <= scheme[i] as int <= 122 && t[i] as int == scheme[i] as int - 32)
  }

  lemma {:induction false} SameIndex(u: string, v: string, from: nat)
    requires |u| == |v| && from <= |SCHEMES| && forall i :: 0 <= i < |u| ==> Lower(u[i]) == Lower(v[i])
    ensures SchemeIndex(u, from) == SchemeIndex(v, from)
    decreases |SCHEMES| - from
  {
    if from < |SCHEMES| {
      assert StartsIgnoringCase(u, SCHEMES[from].typed) <==> StartsIgnoringCase(v, SCHEMES[from].typed);
      SameIndex(u, v, from + 1);
    }
  }

  // The case a scheme is typed in changes nothing.
  lemma {:induction false} SchemeCaseIsIgnored(t: string, scheme: string, body: string)
    requires scheme in ["ws://", "wss://", "http://", "https://"] && Recased(t, scheme) && !HasSpace(body)
    ensures Expand(t + body) == Expand(scheme + body)
  {
    var u, v := t + body, scheme + body;
    hide Split, Trimmed, SchemeIndex, Contains;
    RecognisedOnce(scheme, body);
    assert SchemeIndex(u, 0) == SchemeIndex(v, 0) by {
      assert forall i :: 0 <= i < |u| ==> Lower(u[i]) == Lower(v[i]);
      SameIndex(u, v, 0);
    }
    assert u[|scheme|..] == body == v[|scheme|..];
    assert !HasSpace(u) by {
      assert forall c <- u :: c in t || c in body;
      NoSpaceInScheme(t, scheme);
    }
    hide HasSpace, Recased;
    TrimmedIsItself(u);
    TrimmedIsItself(v);
    assert |u| == |v| && |scheme| <= |u|;
  }

  lemma {:induction false} NoSpaceInScheme(t: string, scheme: string)
    requires scheme in ["ws://", "wss://", "http://", "https://"] && Recased(t, scheme)
    ensures !HasSpace(t)
  {
    forall c | c in t
      ensures !Space(c)
    {
      var i :| 0 <= i < |t| && t[i] == c;
      assert scheme[i] in "htpsw:/";
    }
  }

  lemma {:induction false} RecognisedOnce(scheme: string, body: string)
    requires scheme in ["ws://", "wss://", "http://", "https://"] && !HasSpace(body)
    ensures !HasSpace(scheme + body)
    ensures SchemeIndex(scheme + body, 0) < |SCHEMES|
    ensures SCHEMES[SchemeIndex(scheme + body, 0)].typed == scheme
  {
    if scheme == "ws://" || scheme == "wss://" {
      SpokenIsRecognised(scheme, body);
      UrlHasNoSpace(scheme, body);
    } else {
      BrowserIsRecognised(scheme, if scheme == "http://" then 2 else 3, body);
    }
  }

  // An address that begins with one of the four schemes, in any case.
  predicate Fronted(s: string, scheme: string) {
    |scheme| <= |s| && Recased(s[..|scheme|], scheme)
  }

  predicate Known(s: string) {
    Fronted(s, "ws://") || Fronted(s, "wss://") || Fronted(s, "http://") || Fronted(s, "https://")
  }

  predicate LowerCase(scheme: string) {
    forall i :: 0 <= i < |scheme| ==> 97 <= scheme[i] as int <= 122 || scheme[i] == ':' || scheme[i] == '/'
  }

  lemma {:induction false} FrontedStarts(s: string, scheme: string)
    requires LowerCase(scheme)
    ensures StartsIgnoringCase(s, scheme) <==> Fronted(s, scheme)
  {
    if |scheme| <= |s| {
      assert forall i :: 0 <= i < |scheme| ==> s[..|scheme|][i] == s[i];
      if StartsIgnoringCase(s, scheme) {
        forall i | 0 <= i < |scheme|
          ensures s[i] == scheme[i] || (97 <= scheme[i] as int <= 122 && s[i] as int == scheme[i] as int - 32)
        {
          assert Lower(s[i]) == Lower(scheme[i]) == scheme[i];
        }
      } else if Fronted(s, scheme) {
        forall i | 0 <= i < |scheme|
          ensures Lower(s[i]) == Lower(scheme[i])
        {
          assert s[..|scheme|][i] == s[i];
        }
      }
    }
  }

  lemma {:induction false} BareIsUnknown(s: string)
    ensures Bare(s) <==> !Known(s)
  {
    FrontedStarts(s, "ws://");
    FrontedStarts(s, "wss://");
    FrontedStarts(s, "http://");
    FrontedStarts(s, "https://");
    hide StartsIgnoringCase, Fronted;
    assert forall k :: 0 <= k < |SCHEMES| ==> SCHEMES[k].typed in ["ws://", "wss://", "http://", "https://"];
    assert SCHEMES[0].typed == "ws://" && SCHEMES[1].typed == "wss://";
    assert SCHEMES[2].typed == "http://" && SCHEMES[3].typed == "https://";
  }

  predicate StandsIn(s: string, mark: string, i: nat) {
    i + |mark| <= |s| && s[i..i + |mark|] == mark
  }

  // `mark` stands somewhere in `s`.
  ghost predicate Holds(s: string, mark: string) {
    exists i: nat :: StandsIn(s, mark, i)
  }

  lemma {:induction false} StandsOneOn(s: string, mark: string, i: nat)
    requires s != ""
    ensures StandsIn(s, mark, i + 1) <==> StandsIn(s[1..], mark, i)
    ensures StandsIn(s, mark, 0) <==> mark <= s
  {
    if i + 1 + |mark| <= |s| {
      assert s[i + 1..i + 1 + |mark|] == s[1..][i..i + |mark|];
    }
  }

  lemma {:induction false} ContainsIsHolds(s: string, mark: string)
    ensures Contains(s, mark) <==> Holds(s, mark)
    decreases |s|
  {
    if s == "" {
      assert mark <= s <==> StandsIn(s, mark, 0);
    } else {
      ContainsIsHolds(s[1..], mark);
      hide StandsIn;
      StandsOneOn(s, mark, 0);
      if Holds(s[1..], mark) {
        var i: nat :| StandsIn(s[1..], mark, i);
        StandsOneOn(s, mark, i);
      }
      if Holds(s, mark) {
        var i: nat :| StandsIn(s, mark, i);
        if i != 0 {
          StandsOneOn(s, mark, i - 1);
        }
      }
    }
  }

  // An address is refused for its scheme exactly when it has a :// in it and begins with none of the
  // four.
  lemma {:induction false} SchemeIsRefusedExactlyWhen(typed: string)
    requires typed != "" && !HasSpace(typed)
    ensures Expand(typed) == Refused(UnknownScheme) <==> !Known(typed) && Holds(typed, "://")
  {
    TrimmedIsItself(typed);
    BareIsUnknown(typed);
    ContainsIsHolds(typed, "://");
    SplitRefusesOther(AfterScheme(typed));
    hide Trimmed, HasSpace, Known, Holds, Contains, Bare, Split, AfterScheme, Spoken, Completed;
  }

  lemma {:induction false} SplitRefusesOther(s: string)
    ensures Split(s) != Refused(UnknownScheme)
  {
    hide Find, FindRest, CountOf, GoodPort;
  }
}
