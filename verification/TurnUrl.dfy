/**
 The URLs of `src/werift/turnRedirect.js`: the regular expression of `parseTurnUrl` as a language, the deterministic
 reading of it, and the rewriting of `resolveTurnRedirects`.
 */
module TurnUrl {
  import Bytes
  import opened Sequences
  import opened Text
  import opened TurnRedirect
  import opened Wrappers

  const SCHEME := "turn:"
  const UDP := "?transport=udp"

  datatype Target = Target(host: string, port: nat, query: string)

  /** Equality under the `i` flag, for a `pattern` in lower case. */
  predicate SameLetters(s: string, pattern: string) {
    && |s| == |pattern|
    && forall i | 0 <= i < |s| ::
         s[i] == pattern[i] || ('a' <= pattern[i] <= 'z' && s[i] as int + 32 == pattern[i] as int)
  }

  predicate InHost(c: char) {
    c != ':' && c != '/' && c != '?'
  }

  predicate IsDigit(c: char) {
    '0' <= c <= '9'
  }

  /** An omitted query, or UDP in any case. */
  predicate IsQuery(s: string) {
    s == "" || SameLetters(s, UDP)
  }

  /** `url` is these parts of `/^turn:([^:\/?]+)(?::(\d+))?(\?transport=udp)?$/i`; no digits when there is no port. */
  predicate Written(url: string, scheme: string, host: string, digits: string, query: string) {
    url == scheme + (host + (PortText(digits) + query)) && SameLetters(scheme, SCHEME) && Groups(host, digits, query)
  }

  predicate Groups(host: string, digits: string, query: string) {
    host != "" && (forall i | 0 <= i < |host| :: InHost(host[i])) && AllDigits(digits) && IsQuery(query)
  }

  /** The expression can match in some way that gives these groups. */
  ghost predicate Matches(url: string, host: string, digits: string, query: string) {
    exists scheme :: Written(url, scheme, host, digits, query)
  }

  function PortText(digits: string): string {
    if digits == "" then "" else ":" + digits
  }

  /** The targets a URL may name: any way for the expression to match, subject to the checks that follow it. */
  ghost predicate Names(url: string, t: Target, digits: string) {
    Matches(url, t.host, digits, t.query) && Checked(t, digits)
  }

  /** The checks behind the match. */
  predicate Checked(t: Target, digits: string) {
    && '[' !in t.host
    && AllDigits(digits) && t.port == (if digits == "" then 3478 else ValueOf(digits))
    && 1 <= t.port <= 65535
  }

  /** The length of the longest prefix of characters of one kind. */
  function Span(s: string, kind: char -> bool): (n: nat)
    ensures n <= |s|
    ensures forall i | 0 <= i < n :: kind(s[i])
    ensures n < |s| ==> !kind(s[n])
  {
    if s != "" && kind(s[0]) then 1 + Span(s[1..], kind) else 0
  }

  /** The port's digits at the start of what follows the host. */
  function PortDigits(after: string): (digits: string)
    ensures AllDigits(digits)
    ensures PortText(digits) <= after
  {
    if after != "" && after[0] == ':' then after[1..][..Span(after[1..], IsDigit)] else ""
  }

  /** What follows the host, and the checks on the port. */
  function ParseTail(host: string, after: string): Option<Target> {
    var digits := PortDigits(after);
    var query := after[|PortText(digits)|..];
    var port := if digits == "" then 3478 else ValueOf(digits);
    if !IsQuery(query) || port < 1 || port > 65535 then None else Some(Target(host, port, query))
  }

  function ParseAuthority(rest: string): Option<Target> {
    var n := Span(rest, InHost);
    if n == 0 || '[' in rest[..n] then None else ParseTail(rest[..n], rest[n..])
  }

  /** `parseTurnUrl` on a string. */
  function ParseTurnUrl(url: string): Option<Target> {
    if |url| < 5 || !SameLetters(url[..5], SCHEME) then None else ParseAuthority(url[5..])
  }

  lemma {:induction false} SpanStops(a: string, b: string, kind: char -> bool)
    requires forall i | 0 <= i < |a| :: kind(a[i])
    requires b != "" ==> !kind(b[0])
    ensures Span(a + b, kind) == |a|
  {
    if a == "" {
      Nothing(b);
    } else {
      assert (a + b)[1..] == a[1..] + b;
      SpanStops(a[1..], b, kind);
    }
  }

  /** A query starts with a question mark, so it is neither part of the host nor of the port. */
  lemma QueryStarts(query: string)
    requires IsQuery(query)
    ensures query != "" ==> query[0] == '?'
  {
  }

  lemma PortIsRead(digits: string, query: string)
    requires AllDigits(digits) && IsQuery(query)
    ensures PortDigits(PortText(digits) + query) == digits
    ensures (PortText(digits) + query)[|PortText(digits)|..] == query
  {
    QueryStarts(query);
    if digits == "" {
      Nothing(query);
    } else {
      Associate(":", digits, query);
      FrontAndBack(":", digits + query);
      SpanStops(digits, query, IsDigit);
      FrontAndBack(digits, query);
      FrontAndBack(PortText(digits), query);
    }
  }

  lemma MatchIsRead(url: string, t: Target, digits: string)
    requires Names(url, t, digits)
    ensures ParseTurnUrl(url) == Some(t)
  {
    var after := PortText(digits) + t.query;
    var scheme :| Written(url, scheme, t.host, digits, t.query);
    PortIsRead(digits, t.query);
    QueryStarts(t.query);
    assert after != "" ==> !InHost(after[0]);
    SpanStops(t.host, after, InHost);
    FrontAndBack(t.host, after);
    FrontAndBack(scheme, t.host + after);
  }

  lemma TailIsWritten(t: Target, after: string)
    requires ParseTail(t.host, after) == Some(t)
    ensures after == PortText(PortDigits(after)) + t.query
  {
    Halves(after, |PortText(PortDigits(after))|);
  }

  lemma AuthorityIsWritten(t: Target, rest: string)
    returns (digits: string)
    requires ParseAuthority(rest) == Some(t)
    ensures rest == t.host + (PortText(digits) + t.query)
    ensures Groups(t.host, digits, t.query) && Checked(t, digits)
  {
    var n := Span(rest, InHost);
    digits := PortDigits(rest[n..]);
    TailIsWritten(t, rest[n..]);
    Halves(rest, n);
  }

  lemma ReadIsMatch(url: string, t: Target)
    returns (digits: string)
    requires ParseTurnUrl(url) == Some(t)
    ensures Names(url, t, digits)
  {
    digits := AuthorityIsWritten(t, url[5..]);
    Halves(url, 5);
    assert Written(url, url[..5], t.host, digits, t.query);
  }

  /**
   The reading that never backtracks finds exactly what the expression can match in any way: a URL names at most one
   target, and it is the one returned.
   */
  lemma TargetIffMatch(url: string, t: Target)
    ensures ParseTurnUrl(url) == Some(t) <==> exists digits :: Names(url, t, digits)
  {
    if ParseTurnUrl(url) == Some(t) {
      var digits := ReadIsMatch(url, t);
    }
    if digits :| Names(url, t, digits) {
      MatchIsRead(url, t, digits);
    }
  }

  // ---------------------------------------------------------------------------------------------------------
  // Rewriting

  /** `[...value].join('.')` */
  function Dotted(ip: seq<int>): string
    requires forall i | 0 <= i < |ip| :: 0 <= ip[i]
  {
    Join(seq(|ip|, i requires 0 <= i < |ip| => Digits(ip[i])), ".")
  }

  function Rewritten(alternate: Alternate, query: string): string {
    SCHEME + (Dotted(alternate.ip) + (":" + Digits(alternate.port) + query))
  }

  /** The `urls` of an ICE server: one, or a list. */
  datatype Urls = One(url: string) | Many(urls: seq<string>)

  /** `probe` is what the network answers; a URL with no usable redirect is kept. */
  function ResolveUrl(url: string, probe: (string, nat) -> Option<Alternate>): string {
    var target := ParseTurnUrl(url);
    if target.None? then url
    else
      var alternate := probe(target.value.host, target.value.port);
      if alternate.Some? then Rewritten(alternate.value, target.value.query) else url
  }

  function Resolve(urls: Urls, probe: (string, nat) -> Option<Alternate>): Urls {
    match urls
    case One(url) => One(ResolveUrl(url, probe))
    case Many(list) => Many(seq(|list|, i requires 0 <= i < |list| => ResolveUrl(list[i], probe)))
  }

  lemma {:induction false} JoinedInHost(parts: seq<string>)
    requires forall i | 0 <= i < |parts| :: AllDigits(parts[i])
    ensures forall i | 0 <= i < |Join(parts, ".")| :: IsDigit(Join(parts, ".")[i]) || Join(parts, ".")[i] == '.'
  {
    if |parts| > 1 {
      JoinedInHost(parts[1..]);
    }
  }

  lemma DottedInHost(ip: seq<int>)
    requires ip != [] && forall i | 0 <= i < |ip| :: 0 <= ip[i]
    ensures Dotted(ip) != "" && forall i | 0 <= i < |Dotted(ip)| :: InHost(Dotted(ip)[i]) && Dotted(ip)[i] != '['
  {
    JoinedInHost(seq(|ip|, i requires 0 <= i < |ip| => Digits(ip[i])));
  }

  /**
   What the parser of a redirect can yield turns a URL into one that names the alternate, with the query of the
   original: rewriting stays within the URLs that are resolved.
   */
  lemma RewrittenNamesAlternate(url: string, probe: (string, nat) -> Option<Alternate>)
    requires ParseTurnUrl(url).Some?
    requires forall host, port :: probe(host, port).Some? ==>
               |probe(host, port).value.ip| == 4 && 1 <= probe(host, port).value.port <= 65535
    ensures var t := ParseTurnUrl(url).value;
            match probe(t.host, t.port)
            case None => ResolveUrl(url, probe) == url
            case Some(a) => ParseTurnUrl(ResolveUrl(url, probe)) == Some(Target(Dotted(a.ip), a.port, t.query))
  {
    var t := ParseTurnUrl(url).value;
    var alternate := probe(t.host, t.port);
    if alternate.Some? {
      var a := alternate.value;
      DottedInHost(a.ip);
      DigitsRoundTrip(a.port);
      assert PortText(Digits(a.port)) + t.query == ":" + Digits(a.port) + t.query;
      assert Written(Rewritten(a, t.query), SCHEME, Dotted(a.ip), Digits(a.port), t.query);
      MatchIsRead(Rewritten(a, t.query), Target(Dotted(a.ip), a.port, t.query), Digits(a.port));
    }
  }

  function Entries(urls: Urls): seq<string> {
    match urls
    case One(url) => [url]
    case Many(list) => list
  }

  /**
   Resolving a server's URLs keeps their form, number and order. What is not a TURN URL comes back as it was, and every
   other URL names what it named, or the alternate of its own host and port, with its own query.
   */
  lemma ResolveKeepsServers(urls: Urls, probe: (string, nat) -> Option<Alternate>, i: nat)
    requires i < |Entries(urls)|
    requires forall host, port :: probe(host, port).Some? ==>
               |probe(host, port).value.ip| == 4 && 1 <= probe(host, port).value.port <= 65535
    ensures Resolve(urls, probe).One? == urls.One? && |Entries(Resolve(urls, probe))| == |Entries(urls)|
    ensures var before, after := ParseTurnUrl(Entries(urls)[i]), Entries(Resolve(urls, probe))[i];
            if before.None? then after == Entries(urls)[i]
            else
              ParseTurnUrl(after) == Some(
                match probe(before.value.host, before.value.port)
                case None => before.value
                case Some(a) => Target(Dotted(a.ip), a.port, before.value.query))
  {
    if ParseTurnUrl(Entries(urls)[i]).Some? {
      RewrittenNamesAlternate(Entries(urls)[i], probe);
    }
  }

  /** A redirect that `parseRedirect` can return is one that `RewrittenNamesAlternate` covers. */
  lemma RedirectIsUsable(attrs: seq<Attribute>)
    requires AllWellFormed(attrs) && Verdict(attrs).Redirect?
    ensures |Verdict(attrs).alternate.ip| == 4 && 1 <= Verdict(attrs).alternate.port <= 65535
  {
    LastAlternateIsIpv4(attrs);
  }

  lemma {:induction false} LastAlternateIsIpv4(attrs: seq<Attribute>)
    requires LastAlternate(attrs).Some?
    ensures |LastAlternate(attrs).value.ip| == 4 && LastAlternate(attrs).value.port <= 65535
  {
    var last := attrs[|attrs| - 1];
    if !IsIpv4Alternate(last.typ, last.value) {
      LastAlternateIsIpv4(attrs[..|attrs| - 1]);
    }
  }

  /** The text of a rewritten URL: the four numbers in the order of the bytes, the port, and the query. */
  lemma RewrittenText(ip: seq<Bytes.byte>, port: nat, query: string)
    requires |ip| == 4
    ensures Rewritten(Alternate(ip, port), query)
         == "turn:" + ((Digits(ip[0]) + "." + (Digits(ip[1]) + "." + (Digits(ip[2]) + "." + Digits(ip[3]))))
                       + (":" + Digits(port) + query))
  {
    DottedText(ip);
  }

  lemma DottedText(ip: seq<int>)
    requires |ip| == 4 && forall i | 0 <= i < |ip| :: 0 <= ip[i]
    ensures Dotted(ip) == Digits(ip[0]) + "." + (Digits(ip[1]) + "." + (Digits(ip[2]) + "." + Digits(ip[3])))
  {
    var parts := seq(|ip|, i requires 0 <= i < |ip| => Digits(ip[i]));
    JoinFour(parts);
  }

  lemma JoinFour(parts: seq<string>)
    requires |parts| == 4
    ensures Join(parts, ".") == parts[0] + "." + (parts[1] + "." + (parts[2] + "." + parts[3]))
  {
    var b, c, d := parts[1..], parts[1..][1..], parts[1..][1..][1..];
    assert d == [parts[3]] && |c| == 2 && c[0] == parts[2] && |b| == 3 && b[0] == parts[1];
    assert Join(d, ".") == parts[3];
    assert Join(c, ".") == parts[2] + "." + parts[3];
    assert Join(b, ".") == parts[1] + "." + (parts[2] + "." + parts[3]);
  }

  /** Scheme and query are matched in any case, and the port is 3478 when none is given. */
  lemma UrlsAreRead(host: string, port: nat)
    requires host != "" && '[' !in host && forall i | 0 <= i < |host| :: InHost(host[i])
    requires 1 <= port <= 65535
    ensures ParseTurnUrl("turn:" + (host + (PortText("") + ""))) == Some(Target(host, 3478, ""))
    ensures ParseTurnUrl("TURN:" + (host + ((":" + Digits(port)) + "?TRANSPORT=udp")))
         == Some(Target(host, port, "?TRANSPORT=udp"))
  {
    var plain := "turn:" + (host + (PortText("") + ""));
    assert Written(plain, "turn:", host, "", "");
    MatchIsRead(plain, Target(host, 3478, ""), "");
    var url := "TURN:" + (host + ((":" + Digits(port)) + "?TRANSPORT=udp"));
    DigitsRoundTrip(port);
    CaseIsIgnored();
    assert Written(url, "TURN:", host, Digits(port), "?TRANSPORT=udp");
    MatchIsRead(url, Target(host, port, "?TRANSPORT=udp"), Digits(port));
  }

  lemma CaseIsIgnored()
    ensures SameLetters("TURN:", SCHEME) && SameLetters("?TRANSPORT=udp", UDP) && !SameLetters("turns", SCHEME)
  {
    assert "turns"[4] == 's' && SCHEME[4] == ':';
  }

  /** A path, or the brackets of an IPv6 address, make a URL that is left alone. */
  lemma UrlsAreRefused(host: string, rest: string)
    requires forall i | 0 <= i < |host| :: InHost(host[i])
    ensures ParseTurnUrl("turn:" + (host + ("/" + rest))).None?
    ensures '[' in host ==> ParseTurnUrl("turn:" + (host + "")).None?
  {
    FrontAndBack("turn:", host + ("/" + rest));
    SpanStops(host, "/" + rest, InHost);
    FrontAndBack(host, "/" + rest);
    FrontAndBack("turn:", host + "");
    SpanStops(host, "", InHost);
    FrontAndBack(host, "");
  }
}
