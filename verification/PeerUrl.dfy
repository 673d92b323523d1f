/** Which sync peers the command line accepts (rt-cli sync.rs). */
module PeerUrl {
  import opened Basics
  import opened Text
  import opened LineSplit

  datatype PeerError = InvalidPeerUrl | ForbiddenPeerUrl

  function UpTo(s: string, stop: char -> bool): string {
    s[..Span(s, stop)]
  }

  /** Everything before the last colon, or all of s. */
  function BeforeLastColon(s: string): string {
    if ':' !in s then s
    else if Last(s) == ':' then s[..|s| - 1]
    else BeforeLastColon(s[..|s| - 1])
  }

  function StripScheme(u: string): Option<string> {
    match StripPrefix(u, "https://")
    case Some(rest) => Some(rest)
    case None => StripPrefix(u, "http://")
  }

  function HostOf(hostport: string): Option<string> {
    if hostport == "" then None
    else if hostport[0] == '[' then
      var end := Span(hostport, c => c == ']');
      if end == |hostport| || end == 1 then None else Some(hostport[1..end])
    else
      var host := BeforeLastColon(hostport);
      if host == "" then None else Some(host)
  }

  function PeerHost(url: string): Option<string> {
    match StripScheme(Trim(url))
    case None => None
    case Some(rest) =>
      if rest == "" || '@' in rest then None
      else
        var beforeSlash := UpTo(rest, c => c == '/');
        if beforeSlash == "" then None
        else HostOf(UpTo(beforeSlash, c => c == '?' || c == '#'))
  }

  function TrimDots(s: string): (r: string)
    ensures r <= s && (r == "" || Last(r) != '.')
  {
    if s != "" && Last(s) == '.' then TrimDots(s[..|s| - 1]) else s
  }

  function CanonicalHost(host: string): string {
    ToAsciiLowercase(TrimDots(Trim(host)))
  }

  predicate IsCloudPeerHost(host: string) {
    var h := CanonicalHost(host);
    h == "traycer.ai" || EndsWith(h, ".traycer.ai") || h == "traycer.com" || EndsWith(h, ".traycer.com")
  }

  function ValidatePeerUrl(url: string): Option<PeerError> {
    if Trim(url) == "" then Some(InvalidPeerUrl)
    else
      match PeerHost(Trim(url))
      case None => Some(InvalidPeerUrl)
      case Some(host) => if IsCloudPeerHost(host) then Some(ForbiddenPeerUrl) else None
  }

  // ------------------------------------------------------------ the host of a URL

  predicate Delimits(c: char) {
    c == '/' || c == '?' || c == '#'
  }

  /** host[:port] followed by nothing, a path, a query or a fragment, without credentials. */
  predicate WellFormedTail(port: string, tail: string) {
    && (forall k :: 0 <= k < |port| ==> '0' <= port[k] <= '9')
    && '@' !in tail
    && (tail != "" ==> Delimits(tail[0]) && !IsSpace(Last(tail)))
  }

  predicate WellFormedHost(host: string) {
    host != "" && host[0] != '[' && !IsSpace(Last(host))
    && forall k :: 0 <= k < |host| ==> !Delimits(host[k]) && host[k] != '@' && host[k] != ':'
  }

  predicate WellFormedBracketed(address: string) {
    address != "" && forall k :: 0 <= k < |address| ==> !Delimits(address[k]) && address[k] != '@' && address[k] != ']'
  }

  function PortPart(port: string): string {
    if port == "" then "" else ":" + port
  }

  lemma SpanOf(head: string, rest: string, stop: char -> bool)
    requires forall k :: 0 <= k < |head| ==> !stop(head[k])
    requires rest != "" ==> stop(rest[0])
    ensures UpTo(head + rest, stop) == head
  {
    SpanStopsAt(head, rest, stop);
  }

  /** Cutting at the first slash and then at the first ? or # cuts at the first of the three. */
  lemma AuthorityOf(authority: string, tail: string)
    requires forall k :: 0 <= k < |authority| ==> !Delimits(authority[k])
    requires tail != "" ==> Delimits(tail[0])
    ensures UpTo(UpTo(authority + tail, c => c == '/'), c => c == '?' || c == '#') == authority
    ensures authority <= UpTo(authority + tail, c => c == '/')
  {
    var n := Span(tail, c => c == '/');
    var kept, rest := tail[..n], tail[n..];
    assert authority + tail == (authority + kept) + rest;
    SpanOf(authority + kept, rest, c => c == '/');
    SpanOf(authority, kept, c => c == '?' || c == '#');
  }

  lemma BeforeColonStep(s: string, c: char)
    requires ':' in s || c == ':'
    ensures BeforeLastColon(s + [c]) == if c == ':' then s else BeforeLastColon(s)
  {
    var t := s + [c];
    assert t[..|t| - 1] == s && Last(t) == c;
    assert forall x :: x in s ==> x in t;
  }

  lemma {:induction false} ColonBeforePort(host: string, port: string)
    requires ':' !in port
    ensures BeforeLastColon(host + ":" + port) == host
  {
    hide BeforeLastColon;
    if port == "" {
      assert host + ":" + port == host + [':'];
      BeforeColonStep(host, ':');
    } else {
      var front, c := port[..|port| - 1], Last(port);
      var s := host + ":" + front;
      assert port == front + [c];
      assert host + ":" + port == s + [c] && s[|host|] == ':';
      ColonBeforePort(host, front);
      BeforeColonStep(s, c);
    }
  }

  lemma LastColon(host: string, port: string)
    requires ':' !in host && ':' !in port
    ensures BeforeLastColon(host + PortPart(port)) == host
  {
    if port == "" {
      assert host + PortPart(port) == host;
    } else {
      assert host + PortPart(port) == host + ":" + port;
      ColonBeforePort(host, port);
    }
  }

  lemma SchemeIsStripped(secure: bool, rest: string)
    requires rest != "" && !IsSpace(Last(rest))
    ensures var url := (if secure then "https://" else "http://") + rest;
            Trim(url) == url && StripScheme(url) == Some(rest)
  {
    var url := (if secure then "https://" else "http://") + rest;
    assert url[0] == 'h' && Last(url) == Last(rest);
    TrimFixpoint(url);
    if secure {
      assert "https://" <= url && url[8..] == rest;
    } else {
      assert url[4] == ':';
      assert "https://"[4] == 's';
      assert !("https://" <= url);
      assert "http://" <= url && url[7..] == rest;
    }
  }

  /** The host of a URL whose authority is given. */
  lemma HostOfUrl(secure: bool, authority: string, tail: string)
    requires authority != "" && '@' !in authority && '@' !in tail && !IsSpace(Last(authority + tail))
    requires forall k :: 0 <= k < |authority| ==> !Delimits(authority[k])
    requires tail != "" ==> Delimits(tail[0])
    ensures PeerHost((if secure then "https://" else "http://") + authority + tail) == HostOf(authority)
  {
    hide HostOf;
    hide Trim;
    hide StripScheme;
    hide UpTo;
    var rest := authority + tail;
    var url := (if secure then "https://" else "http://") + rest;
    assert (if secure then "https://" else "http://") + authority + tail == url;
    SchemeIsStripped(secure, rest);
    AuthorityOf(authority, tail);
    assert '@' !in rest;
  }

  /** A named host is found, whatever port, path, query or fragment follows. */
  lemma NamedHostIsFound(secure: bool, host: string, port: string, tail: string)
    requires WellFormedHost(host) && WellFormedTail(port, tail)
    ensures PeerHost((if secure then "https://" else "http://") + (host + PortPart(port)) + tail) == Some(host)
  {
    var authority := host + PortPart(port);
    LastColon(host, port);
    forall k | 0 <= k < |authority| ensures !Delimits(authority[k]) && authority[k] != '@' {}
    assert !IsSpace(Last(authority + tail));
    HostOfUrl(secure, authority, tail);
  }

  lemma HostOfBracketed(address: string, port: string)
    requires address != "" && ']' !in address
    ensures HostOf("[" + address + "]" + PortPart(port)) == Some(address)
  {
    hide PortPart;
    var authority := "[" + address + "]" + PortPart(port);
    var head, after := "[" + address, "]" + PortPart(port);
    assert authority == head + after;
    SpanOf(head, after, c => c == ']');
    assert Span(authority, c => c == ']') == |head|;
    assert authority[1..|head|] == address;
  }

  /** So is a bracketed address. */
  lemma BracketedHostIsFound(secure: bool, address: string, port: string, tail: string)
    requires WellFormedBracketed(address) && WellFormedTail(port, tail)
    ensures PeerHost((if secure then "https://" else "http://") + ("[" + address + "]" + PortPart(port)) + tail)
            == Some(address)
  {
    hide PeerHost;
    hide HostOf;
    var authority := "[" + address + "]" + PortPart(port);
    HostOfBracketed(address, port);
    forall k | 0 <= k < |authority| ensures !Delimits(authority[k]) && authority[k] != '@' {}
    assert !IsSpace(Last(authority + tail));
    HostOfUrl(secure, authority, tail);
  }

  // ------------------------------------------------------------ forbidden domains

  /** The dot-separated labels of a name. */
  function Labels(s: string): (r: seq<string>)
    ensures r != []
  {
    var n := UntilLf(s, '.');
    if n == |s| then [s] else [s[..n]] + Labels(s[n + 1..])
  }

  lemma LabelsOfFirst(first: string, next: string)
    requires '.' !in first
    ensures Labels(first) == [first]
    ensures Labels(first + "." + next) == [first] + Labels(next)
  {
    hide Labels;
    LabelsStep(first);
    LabelsStep(first + "." + next);
    assert first + [] == first;
    UntilLfOf(first, [], '.');
    assert first + "." + next == first + ("." + next);
    UntilLfOf(first, "." + next, '.');
    assert (first + "." + next)[..|first|] == first && (first + "." + next)[|first| + 1..] == next;
  }

  lemma LabelsStep(s: string)
    ensures var n := UntilLf(s, '.'); Labels(s) == if n == |s| then [s] else [s[..n]] + Labels(s[n + 1..])
  {
    hide UntilLf;
  }

  lemma {:induction false} JoinAppend(a: seq<string>, b: seq<string>)
    requires a != [] && b != []
    ensures Join(a + b, '.') == Join(a, '.') + "." + Join(b, '.')
  {
    hide Join;
    var more := a[1..];
    assert a == [a[0]] + more && a + b == [a[0]] + (more + b);
    JoinCons(a[0], more + b, '.');
    if more == [] {
      assert more + b == b && a == [a[0]];
      JoinOne(a[0]);
    } else {
      JoinAppend(more, b);
      JoinCons(a[0], more, '.');
      assert a[0] + "." + (Join(more, '.') + "." + Join(b, '.')) == (a[0] + "." + Join(more, '.')) + "." + Join(b, '.');
    }
  }

  lemma JoinOne(x: string)
    ensures Join([x], '.') == x
  {
  }

  lemma {:induction false} JoinOfLabels(s: string)
    ensures Join(Labels(s), '.') == s && forall x :: x in Labels(s) ==> '.' !in x
    decreases |s|
  {
    hide Labels;
    hide Join;
    var first, next := FirstLine(s, '.');
    LabelsOfFirst(first, next);
    if '.' in s {
      JoinOfLabels(next);
      JoinCons(first, Labels(next), '.');
    } else {
      JoinOne(s);
    }
  }

  lemma {:induction false} LabelsOfJoin(xs: seq<string>)
    requires xs != [] && forall x :: x in xs ==> '.' !in x
    ensures Labels(Join(xs, '.')) == xs
  {
    hide Labels;
    hide Join;
    var more := xs[1..];
    assert xs == [xs[0]] + more;
    LabelsOfFirst(xs[0], Join(more, '.'));
    if more == [] {
      assert xs == [xs[0]];
      JoinOne(xs[0]);
    } else {
      LabelsOfJoin(more);
      JoinCons(xs[0], more, '.');
    }
  }

  ghost predicate EndsInLabels(s: string, x: string, y: string) {
    var ls := Labels(s);
    |ls| >= 2 && ls[|ls| - 2] == x && ls[|ls| - 1] == y
  }

  /** A name is the domain x.y or below it exactly when its last two labels are x and y. */
  lemma DomainIffLabels(s: string, x: string, y: string)
    requires '.' !in x && '.' !in y
    ensures s == x + "." + y || EndsWith(s, "." + x + "." + y) <==> EndsInLabels(s, x, y)
  {
    hide Labels;
    hide Join;
    JoinOfLabels(s);
    JoinOne(x);
    JoinOne(y);
    JoinAppend([x], [y]);
    assert [x] + [y] == [x, y];
    var ls, domain := Labels(s), x + "." + y;
    if EndsInLabels(s, x, y) {
      var upper := ls[..|ls| - 2];
      assert ls == upper + [x, y];
      if upper == [] {
        assert ls == [x, y];
      } else {
        JoinAppend(upper, [x, y]);
        assert s == Join(upper, '.') + ("." + x + "." + y);
      }
    }
    if s == domain {
      LabelsOfJoin([x, y]);
    }
    if EndsWith(s, "." + x + "." + y) {
      var p := s[..|s| - |"." + x + "." + y|];
      assert s == p + "." + domain;
      JoinOfLabels(p);
      JoinAppend(Labels(p), [x, y]);
      LabelsOfJoin(Labels(p) + [x, y]);
    }
  }

  /** A peer is forbidden exactly when its host, trimmed, without trailing dots and in lower
      case, lies in one of the two cloud domains. */
  lemma ForbiddenIffCloudDomain(url: string)
    ensures ValidatePeerUrl(url) == Some(ForbiddenPeerUrl) <==>
            && PeerHost(Trim(url)).Some?
            && var h := CanonicalHost(PeerHost(Trim(url)).value);
               EndsInLabels(h, "traycer", "ai") || EndsInLabels(h, "traycer", "com")
  {
    hide IsCloudPeerHost;
    hide CanonicalHost;
    hide EndsInLabels;
    if PeerHost(Trim(url)).Some? {
      CloudIffLabels(PeerHost(Trim(url)).value);
      NoHostInEmpty();
    }
  }

  lemma NoHostInEmpty()
    ensures PeerHost("") == None
  {
    assert Trim("") == "";
  }

  lemma CloudIffLabels(host: string)
    ensures IsCloudPeerHost(host) <==>
            EndsInLabels(CanonicalHost(host), "traycer", "ai") || EndsInLabels(CanonicalHost(host), "traycer", "com")
  {
    hide CanonicalHost;
    hide EndsInLabels;
    var h := CanonicalHost(host);
    DomainIffLabels(h, "traycer", "ai");
    DomainIffLabels(h, "traycer", "com");
    assert "traycer" + "." + "ai" == "traycer.ai" && "." + "traycer" + "." + "ai" == ".traycer.ai";
    assert "traycer" + "." + "com" == "traycer.com" && "." + "traycer" + "." + "com" == ".traycer.com";
  }

  // ------------------------------------------------------------ case and trailing dots

  predicate AllDots(dots: string) {
    forall k :: 0 <= k < |dots| ==> dots[k] == '.'
  }

  lemma {:induction false} TrimDotsOf(s: string, dots: string)
    requires AllDots(dots) && (s == "" || Last(s) != '.')
    ensures TrimDots(s + dots) == s
  {
    if dots == "" {
      assert s + dots == s;
    } else {
      assert (s + dots)[..|s + dots| - 1] == s + dots[..|dots| - 1];
      TrimDotsOf(s, dots[..|dots| - 1]);
    }
  }

  /** A host name, dots after it, and a port and more that fit. */
  predicate WellFormedDotted(name: string, dots: string, port: string, tail: string) {
    AllDots(dots) && (name == "" || Last(name) != '.') && WellFormedHost(name + dots) && WellFormedTail(port, tail)
  }

  function UrlOf(secure: bool, name: string, dots: string, port: string, tail: string): string {
    (if secure then "https://" else "http://") + ((name + dots) + PortPart(port)) + tail
  }

  lemma CanonicalOf(name: string, dots: string)
    requires AllDots(dots) && (name == "" || Last(name) != '.') && WellFormedHost(name + dots)
    ensures CanonicalHost(name + dots) == ToAsciiLowercase(TrimStart(name))
  {
    hide TrimStart;
    hide TrimDots;
    hide Trim;
    hide ToAsciiLowercase;
    TrimDotted(name, dots);
    TrimDotsOf(TrimStart(name), dots);
  }

  lemma TrimDotted(name: string, dots: string)
    requires AllDots(dots) && name + dots != "" && !IsSpace(Last(name + dots))
    ensures Trim(name + dots) == TrimStart(name) + dots
  {
    hide IsSpace;
    hide TrimStart;
    hide Trim;
    hide Blank;
    var start := TrimStart(name);
    var before := name[..|name| - |start|];
    TrimStartDrops(name);
    NothingIsBlank();
    assert name == before + start;
    DottedIsTrimmed(start, dots);
    Regroup(before, start, dots);
    if start + dots == "" {
      assert name + dots == before;
      BlankLast(before);
    } else {
      TrimOf(before, start + dots, "");
    }
  }

  lemma Regroup(before: string, start: string, dots: string)
    ensures (before + start) + dots == before + (start + dots) + ""
    ensures start + dots != "" ==> Last(before + start + dots) == Last(start + dots)
  {
  }

  lemma NothingIsBlank()
    ensures Blank("")
  {
  }

  lemma BlankLast(s: string)
    requires Blank(s) && s != ""
    ensures IsSpace(Last(s))
  {
  }

  lemma DottedIsTrimmed(start: string, dots: string)
    requires AllDots(dots) && (start == "" || !IsSpace(start[0]))
    ensures start + dots != "" && !IsSpace(Last(start + dots)) ==> Trimmed(start + dots)
  {
  }

  lemma {:induction false} LabelsLower(s: string)
    ensures |Labels(ToAsciiLowercase(s))| == |Labels(s)|
    ensures forall k :: 0 <= k < |Labels(s)| ==> Labels(ToAsciiLowercase(s))[k] == ToAsciiLowercase(Labels(s)[k])
    decreases |s|
  {
    hide Labels;
    var first, next := FirstLine(s, '.');
    var low := ToAsciiLowercase(first);
    DotOnly(first);
    LabelsOfFirst(first, next);
    LabelsOfFirst(low, ToAsciiLowercase(next));
    if '.' in s {
      assert ToAsciiLowercase(s) == low + "." + ToAsciiLowercase(next);
      LabelsLower(next);
    }
  }

  lemma DotOnly(s: string)
    ensures '.' in ToAsciiLowercase(s) <==> '.' in s
  {
    assert forall k :: 0 <= k < |s| ==> (ToAsciiLowercase(s)[k] == '.' <==> s[k] == '.');
    if '.' in s { var k :| 0 <= k < |s| && s[k] == '.'; assert ToAsciiLowercase(s)[k] == '.'; }
  }

  /** The last two labels of s spell x and y in some case. */
  ghost predicate EndsSpelled(s: string, x: string, y: string) {
    var ls := Labels(s);
    |ls| >= 2 && SameIgnoringCase(ls[|ls| - 2], x) && SameIgnoringCase(ls[|ls| - 1], y)
  }

  lemma SpelledIff(s: string, x: string, y: string)
    requires ToAsciiLowercase(x) == x && ToAsciiLowercase(y) == y
    ensures EndsInLabels(ToAsciiLowercase(s), x, y) <==> EndsSpelled(s, x, y)
  {
    hide Labels;
    hide ToAsciiLowercase;
    hide SameIgnoringCase;
    LabelsLower(s);
    var ls := Labels(s);
    if |ls| >= 2 {
      LowercaseIff(ls[|ls| - 2], x);
      LowercaseIff(ls[|ls| - 1], y);
    }
  }

  lemma DomainsAreLower()
    ensures ToAsciiLowercase("traycer") == "traycer"
    ensures ToAsciiLowercase("ai") == "ai" && ToAsciiLowercase("com") == "com"
  {
    assert forall k :: 0 <= k < 7 ==> Lower("traycer"[k]) == "traycer"[k];
    assert forall k :: 0 <= k < 2 ==> Lower("ai"[k]) == "ai"[k];
    assert forall k :: 0 <= k < 3 ==> Lower("com"[k]) == "com"[k];
  }

  lemma NamedVerdict(secure: bool, name: string, dots: string, port: string, tail: string)
    requires WellFormedDotted(name, dots, port, tail)
    ensures ValidatePeerUrl(UrlOf(secure, name, dots, port, tail))
            == if IsCloudPeerHost(name + dots) then Some(ForbiddenPeerUrl) else None
  {
    hide PeerHost;
    hide IsCloudPeerHost;
    hide Trim;
    hide WellFormedHost;
    hide WellFormedTail;
    var url := UrlOf(secure, name, dots, port, tail);
    NamedHostIsFound(secure, name + dots, port, tail);
    HostOfTrimmed(url);
    NoHostInEmpty();
  }

  lemma HostOfTrimmed(url: string)
    ensures PeerHost(Trim(url)) == PeerHost(url)
  {
    hide Trim;
    hide StripScheme;
    TrimIsTrimmed(url);
    TrimFixpoint(Trim(url));
  }

  /** A named peer is forbidden exactly when the last two labels of its name, trailing dots aside,
      spell traycer.ai or traycer.com in any case, and accepted otherwise. */
  lemma ForbiddenIffSpelled(secure: bool, name: string, dots: string, port: string, tail: string)
    requires WellFormedDotted(name, dots, port, tail)
    ensures ValidatePeerUrl(UrlOf(secure, name, dots, port, tail))
            == if EndsSpelled(TrimStart(name), "traycer", "ai") || EndsSpelled(TrimStart(name), "traycer", "com")
               then Some(ForbiddenPeerUrl) else None
  {
    hide ValidatePeerUrl;
    hide IsCloudPeerHost;
    hide CanonicalHost;
    hide EndsSpelled;
    hide EndsInLabels;
    hide ToAsciiLowercase;
    hide TrimStart;
    NamedVerdict(secure, name, dots, port, tail);
    CloudIffLabels(name + dots);
    CanonicalOf(name, dots);
    DomainsAreLower();
    SpelledIff(TrimStart(name), "traycer", "ai");
    SpelledIff(TrimStart(name), "traycer", "com");
  }

  lemma {:induction false} TrimStartIgnoresCase(a: string, b: string)
    requires SameIgnoringCase(a, b)
    ensures SameIgnoringCase(TrimStart(a), TrimStart(b))
  {
    if a != "" {
      SpaceIgnoresCase(a[0], b[0]);
      if IsSpace(a[0]) { TrimStartIgnoresCase(a[1..], b[1..]); }
    }
  }

  lemma SpaceIgnoresCase(a: char, b: char)
    requires SameLetter(a, b)
    ensures IsSpace(a) <==> IsSpace(b)
  {
  }

  /** Neither the case of its letters nor trailing dots change what is said of a peer. */
  lemma CaseAndDotsDoNotMatter(secure: bool, name: string, dots: string, other: string, otherDots: string,
                               port: string, tail: string)
    requires WellFormedDotted(name, dots, port, tail) && WellFormedDotted(other, otherDots, port, tail)
    requires SameIgnoringCase(name, other)
    ensures ValidatePeerUrl(UrlOf(secure, name, dots, port, tail))
            == ValidatePeerUrl(UrlOf(secure, other, otherDots, port, tail))
  {
    hide ValidatePeerUrl;
    hide CanonicalHost;
    hide ToAsciiLowercase;
    hide TrimStart;
    hide SameIgnoringCase;
    NamedVerdict(secure, name, dots, port, tail);
    NamedVerdict(secure, other, otherDots, port, tail);
    CanonicalOf(name, dots);
    CanonicalOf(other, otherDots);
    TrimStartIgnoresCase(name, other);
    LowercaseIff(TrimStart(name), TrimStart(other));
  }

  /** A peer without http:// or https:// in front is invalid. */
  lemma SchemeIsRequired(url: string)
    requires ValidatePeerUrl(url) != Some(InvalidPeerUrl)
    ensures "https://" <= Trim(url) || "http://" <= Trim(url)
  {
    hide Trim;
    hide IsCloudPeerHost;
    HostOfTrimmed(url);
  }

  /** Credentials anywhere in the URL make it invalid. */
  lemma CredentialsAreRefused(url: string)
    requires '@' in url
    ensures ValidatePeerUrl(url) == Some(InvalidPeerUrl)
  {
    hide Trim;
    TrimKeeps(url, '@');
    TrimKeeps(Trim(url), '@');
    SchemeKeeps(Trim(Trim(url)), '@');
  }

  lemma SchemeKeeps(u: string, c: char)
    requires c in u && c !in "https://"
    ensures StripScheme(u).Some? ==> c in StripScheme(u).value
  {
    if StripScheme(u).Some? {
      var rest := StripScheme(u).value;
      var prefix := u[..|u| - |rest|];
      assert u == prefix + rest;
      assert prefix == "https://" || prefix == "http://";
      assert forall x :: x in "http://" ==> x in "https://";
    }
  }

  lemma TrimKeeps(s: string, c: char)
    requires c in s && !IsSpace(c)
    ensures c in Trim(s)
  {
    hide IsSpace;
    TrimStartKeeps(s, c);
    TrimEndKeeps(TrimStart(s), c);
  }

  lemma {:induction false} TrimStartKeeps(s: string, c: char)
    requires c in s && !IsSpace(c)
    ensures c in TrimStart(s)
  {
    if IsSpace(s[0]) {
      assert s == [s[0]] + s[1..];
      TrimStartKeeps(s[1..], c);
    }
  }

  lemma {:induction false} TrimEndKeeps(s: string, c: char)
    requires c in s && !IsSpace(c)
    ensures c in TrimEnd(s)
  {
    if IsSpace(Last(s)) {
      assert s == s[..|s| - 1] + [Last(s)];
      TrimEndKeeps(s[..|s| - 1], c);
    }
  }
}
