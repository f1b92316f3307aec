/** What counts as a hash, a domain or a URL's host, said without the parsing that finds it, and what
    becomes of a fanged domain. */
module IndicatorForms {
  import opened Wrappers
  import Text
  import opened IndicatorTokens
  import opened IndicatorFangs
  import opened Indicators
  import opened IndicatorTheorems

  // ------------------------------------------------------------------ admission and hashes

  predicate IsBarred(c: char) {
    c as int < 32 || 127 <= c as int <= 159 || c == '`' || c == '\\'
  }

  /** A token is not admitted for its value exactly when it is longer than 2048 bytes or has a control
      character, a backtick or a backslash. */
  lemma AdmittedExactly(token: string)
    ensures Admit(token) == Err(InvalidValue) <==>
              Text.ByteLength(token) > 2048 || exists i :: 0 <= i < |token| && IsBarred(token[i])
  {
    assert forall i :: 0 <= i < |token| ==> (IsBarred(token[i]) <==> IsUnsafe(token[i]));
  }

  /** What is admitted is the refanged token. */
  lemma AdmittedIsRefanged(token: string)
    requires Admit(token).Ok?
    ensures Refang(token) == Some(Admit(token).value)
  {
  }

  predicate AllHex(t: string) {
    forall i :: 0 <= i < |t| ==> t[i] in "0123456789abcdefABCDEF"
  }

  lemma HexIs(c: char)
    ensures IsHexDigit(c) <==> c in "0123456789abcdefABCDEF"
  {
  }

  lemma {:induction false} HexBytes(t: string)
    requires AllHex(t)
    ensures Text.ByteLength(t) == |t|
  {
    if t != "" { HexBytes(t[1..]); }
  }

  /** Sixty-four, forty or thirty-two hexadecimal digits make a hash, and nothing else does. */
  lemma HashExactly(t: string)
    ensures HashKind(t) == Some(Sha256) <==> AllHex(t) && |t| == 64
    ensures HashKind(t) == Some(Sha1) <==> AllHex(t) && |t| == 40
    ensures HashKind(t) == Some(Md5) <==> AllHex(t) && |t| == 32
  {
    forall i | 0 <= i < |t| ensures IsHexDigit(t[i]) <==> t[i] in "0123456789abcdefABCDEF" { HexIs(t[i]); }
    if AllHex(t) { HexBytes(t); }
  }

  // ------------------------------------------------------------------ domains

  /** Labels with dots between them. */
  function Joined(labels: seq<string>): string
    requires labels != []
  {
    if |labels| == 1 then labels[0] else labels[0] + "." + Joined(labels[1..])
  }

  predicate Dotless(l: string) {
    forall i :: 0 <= i < |l| ==> l[i] != '.'
  }

  lemma {:induction false} JoinedSplits(labels: seq<string>)
    requires labels != [] && forall i :: 0 <= i < |labels| ==> Dotless(labels[i])
    ensures Text.Split(Joined(labels), IsDot) == labels
    decreases |labels|
  {
    if |labels| == 1 {
      Text.SplitUnfold(labels[0], IsDot, |labels[0]|);
    } else {
      Text.SplitAfter(labels[0], '.', Joined(labels[1..]), IsDot);
      JoinedSplits(labels[1..]);
    }
  }

  lemma JoinedMore(first: string, labels: seq<string>)
    requires labels != []
    ensures Joined([first] + labels) == first + "." + Joined(labels)
  {
    assert ([first] + labels)[1..] == labels;
  }

  lemma {:induction false} SplitJoins(t: string)
    ensures Joined(Text.Split(t, IsDot)) == t
    ensures forall i :: 0 <= i < |Text.Split(t, IsDot)| ==> Dotless(Text.Split(t, IsDot)[i])
    decreases |t|
  {
    var n := Text.Leading(t, c => !IsDot(c));
    if n == |t| {
      Text.SplitUnfold(t, IsDot, n);
    } else {
      var first, rest := t[..n], t[n + 1..];
      assert t == first + ['.'] + rest && Dotless(first);
      Text.SplitAfter(first, '.', rest, IsDot);
      SplitJoins(rest);
      JoinedMore(first, Text.Split(rest, IsDot));
    }
  }

  predicate IsHostLabel(l: string) {
    && 1 <= |l| <= 63 && l[0] != '-' && l[|l| - 1] != '-'
    && forall i :: 0 <= i < |l| ==> 'a' <= l[i] <= 'z' || 'A' <= l[i] <= 'Z' || '0' <= l[i] <= '9' || l[i] == '-'
  }

  predicate IsWord(l: string) {
    forall i :: 0 <= i < |l| ==> 'a' <= l[i] <= 'z' || 'A' <= l[i] <= 'Z'
  }

  const EXTENSIONS: set<string> := {
    "exe", "dll", "sys", "scr", "msi", "bat", "cmd", "ps1", "psm1", "vbs", "vbe", "js", "jse", "hta", "lnk", "txt",
    "log", "tmp", "dat", "bin", "iso", "img", "doc", "docx", "xls", "xlsx", "pdf", "jar"
  }

  /** Two labels or more, the last of letters and no extension of a file, 253 characters at most. */
  predicate IsHostName(t: string, labels: seq<string>) {
    && |labels| >= 2 && t == Joined(labels) && |t| <= 253
    && (forall i :: 0 <= i < |labels| ==> IsHostLabel(labels[i]))
    && IsWord(labels[|labels| - 1]) && Text.ToLower(labels[|labels| - 1]) !in EXTENSIONS
  }

  lemma {:induction false} OneOf(s: string, names: seq<string>)
    ensures IsOneOf(s, names) <==> s in names
  {
    if names != [] { OneOf(s, names[1..]); }
  }

  lemma FileNameIs(top: string)
    ensures IsFileName(top) <==> Text.ToLower(top) in EXTENSIONS
  {
    OneOf(Text.ToLower(top), FILE_EXTENSIONS);
  }

  lemma LabelIs(l: string)
    ensures IsLabel(l) <==> IsHostLabel(l)
  {
    if forall i :: 0 <= i < |l| ==> l[i] as int < 128 { AsciiBytes(l); }
  }

  lemma {:induction false} JoinedAscii(labels: seq<string>)
    requires labels != [] && forall i :: 0 <= i < |labels| ==> IsHostLabel(labels[i])
    ensures IsAscii(Joined(labels))
    decreases |labels|
  {
    if |labels| > 1 { JoinedAscii(labels[1..]); }
  }

  lemma LabelsAre(labels: seq<string>)
    requires |labels| >= 2
    ensures AreLabels(labels) <==>
              IsWord(labels[|labels| - 1]) && forall i :: 0 <= i < |labels| ==> IsHostLabel(labels[i])
  {
    forall i | 0 <= i < |labels| ensures IsLabel(labels[i]) <==> IsHostLabel(labels[i]) { LabelIs(labels[i]); }
  }

  lemma JoinedBytes(labels: seq<string>)
    requires labels != []
    ensures (forall i :: 0 <= i < |labels| ==> IsHostLabel(labels[i]))
            ==> Text.ByteLength(Joined(labels)) == |Joined(labels)|
  {
    if forall i :: 0 <= i < |labels| ==> IsHostLabel(labels[i]) {
      JoinedAscii(labels);
      AsciiBytes(Joined(labels));
    }
  }

  lemma NameIsDomain(t: string, labels: seq<string>)
    requires |labels| >= 2 && t == Joined(labels) && Text.Split(t, IsDot) == labels
    ensures IsDomain(t) <==> IsHostName(t, labels)
  {
    LabelsAre(labels);
    FileNameIs(labels[|labels| - 1]);
    JoinedBytes(labels);
  }

  /** What is taken for a domain is exactly such a name. */
  lemma DomainExactly(t: string)
    ensures IsDomain(t) <==> exists labels :: IsHostName(t, labels)
  {
    var pieces := Text.Split(t, IsDot);
    SplitJoins(t);
    if |pieces| >= 2 { NameIsDomain(t, pieces); }
    if labels :| IsHostName(t, labels) {
      forall i | 0 <= i < |labels| ensures Dotless(labels[i]) { assert IsHostLabel(labels[i]); }
      JoinedSplits(labels);
      NameIsDomain(t, labels);
    }
  }

  // ------------------------------------------------------------------ hosts

  lemma LowerTwo(a: string, b: string)
    ensures Text.ToLower(a + b) == Text.ToLower(a) + Text.ToLower(b)
  {
  }

  predicate Avoids(s: string, stops: set<char>) {
    forall i :: 0 <= i < |s| ==> s[i] !in stops
  }

  lemma LowerAvoids(s: string, stops: set<char>)
    requires Avoids(s, stops) && forall c :: c in stops ==> !('a' <= c <= 'z')
    ensures Avoids(Text.ToLower(s), stops)
  {
  }

  lemma UntilIs(part: string, rest: string, stops: set<char>)
    requires Avoids(part, stops) && (rest == "" || rest[0] in stops)
    ensures Until(part + rest, stops) == part
  {
    var s, r := part + rest, Until(part + rest, stops);
    assert forall i :: 0 <= i < |part| ==> s[i] == part[i];
    assert r == s[..|r|];
    assert |part| < |s| ==> s[|part|] in stops;
    assert forall i :: 0 <= i < |r| ==> s[i] !in stops;
  }

  lemma AfterLastIs(before: string, part: string)
    requires Avoids(part, {'@'}) && (before == "" || before[|before| - 1] == '@')
    ensures AfterLast(before + part, '@') == part
  {
    var s, r := before + part, AfterLast(before + part, '@');
    assert forall i :: 0 <= i < |part| ==> s[|before| + i] == part[i];
    assert r == s[|s| - |r|..];
    assert |before| > 0 ==> s[|before| - 1] == '@';
    assert forall i :: |s| - |r| <= i < |s| ==> s[i] != '@';
  }

  /** What stands before a host: a user, who ends with an at sign, or nothing. */
  predicate IsUser(user: string) {
    Avoids(user, {'/', '?', '#'}) && (user == "" || user[|user| - 1] == '@')
  }

  /** What stands behind it: a path, a query, a fragment, or nothing. */
  predicate IsBehind(rest: string) {
    rest == "" || rest[0] in {'/', '?', '#'}
  }

  lemma AuthorityIs(user: string, authority: string, rest: string)
    requires IsUser(user) && IsBehind(rest) && Avoids(authority, {'/', '?', '#', '@'})
    ensures HostIn(user + authority + rest) == HostAt(authority)
  {
    UntilIs(user + authority, rest, {'/', '?', '#'});
    AfterLastIs(user, authority);
  }

  /** The host of an authority, a port or nothing behind it. */
  lemma PlainHostAt(host: string, port: string)
    requires host != "" && host[0] != '[' && Avoids(host, {':'}) && (port == "" || port[0] == ':')
    ensures HostAt(host + port) == host
  {
    assert (host + port)[0] == host[0];
    UntilIs(host, port, {':'});
  }

  /** In brackets, whatever follows the closing one. */
  lemma BracketedHostAt(host: string, closed: string)
    requires Avoids(host, {']'}) && closed != "" && closed[0] == ']'
    ensures HostAt("[" + (host + closed)) == host
  {
    var authority := "[" + (host + closed);
    assert authority[1..] == host + closed;
    UntilIs(host, closed, {']'});
  }

  /** A scheme in any case. */
  predicate IsScheme(scheme: string) {
    Text.ToLower(scheme) == "https://" || Text.ToLower(scheme) == "http://"
  }

  lemma AfterSchemeIs(scheme: string, rest: string)
    requires IsScheme(scheme)
    ensures AfterScheme(scheme + rest) == Some(Text.ToLower(rest))
  {
    var lower := Text.ToLower(scheme + rest);
    LowerTwo(scheme, rest);
    assert lower == Text.ToLower(scheme) + Text.ToLower(rest);
    assert lower[..|scheme|] == Text.ToLower(scheme) && lower[|scheme|..] == Text.ToLower(rest);
    assert |"https://"| == 8 && |"http://"| == 7;
    if Text.ToLower(scheme) == "http://" { assert lower[4] == ':'; }
  }

  lemma LowerParts(user: string, authority: string, rest: string)
    requires IsUser(user) && IsBehind(rest)
    ensures Text.ToLower(user + authority + rest) == Text.ToLower(user) + Text.ToLower(authority) + Text.ToLower(rest)
    ensures IsUser(Text.ToLower(user)) && IsBehind(Text.ToLower(rest))
  {
    LowerAvoids(user, {'/', '?', '#'});
  }

  /** A URL's host is read back in lower case, whatever user, port, path, query or fragment it has. */
  lemma HostReadsBack(scheme: string, user: string, host: string, port: string, rest: string)
    requires IsScheme(scheme) && IsUser(user) && IsBehind(rest) && Avoids(host + port, {'/', '?', '#', '@'})
    requires host != "" && host[0] != '[' && Avoids(host, {':'}) && (port == "" || port[0] == ':')
    ensures UrlHost(scheme + (user + (host + port) + rest)) == Some(Text.ToLower(host))
  {
    AfterSchemeIs(scheme, user + (host + port) + rest);
    LowerParts(user, host + port, rest);
    LowerTwo(host, port);
    LowerAvoids(host + port, {'/', '?', '#', '@'});
    LowerAvoids(host, {':'});
    AuthorityIs(Text.ToLower(user), Text.ToLower(host) + Text.ToLower(port), Text.ToLower(rest));
    PlainHostAt(Text.ToLower(host), Text.ToLower(port));
  }

  lemma BracketedHostReadsBack(scheme: string, user: string, host: string, port: string, rest: string)
    requires IsScheme(scheme) && IsUser(user) && IsBehind(rest) && host != "" && Avoids(host, {']'})
    requires Avoids("[" + (host + ("]" + port)), {'/', '?', '#', '@'})
    ensures UrlHost(scheme + (user + ("[" + (host + ("]" + port))) + rest)) == Some(Text.ToLower(host))
  {
    var authority := "[" + (host + ("]" + port));
    AfterSchemeIs(scheme, user + authority + rest);
    LowerParts(user, authority, rest);
    assert Text.ToLower(authority) == "[" + (Text.ToLower(host) + ("]" + Text.ToLower(port)));
    LowerAvoids(authority, {'/', '?', '#', '@'});
    LowerAvoids(host, {']'});
    AuthorityIs(Text.ToLower(user), Text.ToLower(authority), Text.ToLower(rest));
    BracketedHostAt(Text.ToLower(host), "]" + Text.ToLower(port));
  }

  /** Without a scheme there is no host. */
  lemma NoSchemeNoHost(t: string)
    requires UrlHost(t).Some?
    ensures (|t| >= 8 && IsScheme(t[..8])) || (|t| >= 7 && IsScheme(t[..7]))
  {
    var lower := Text.ToLower(t);
    assert |"https://"| == 8 && |"http://"| == 7;
    if "https://" <= lower {
      assert Text.ToLower(t[..8]) == lower[..8];
    } else {
      assert Text.ToLower(t[..7]) == lower[..7];
    }
  }

  // ------------------------------------------------------------------ a fanged domain

  lemma {:induction false} JoinedIsPlain(labels: seq<string>)
    requires labels != [] && forall i :: 0 <= i < |labels| ==> IsHostLabel(labels[i])
    ensures IsClean(Joined(labels)) && ':' !in Joined(labels)
    decreases |labels|
  {
    if |labels| > 1 { JoinedIsPlain(labels[1..]); }
  }

  lemma DomainIsPlain(t: string)
    requires IsDomain(t)
    ensures IsClean(t) && IsAscii(t) && ':' !in t && '.' in t
  {
    DomainExactly(t);
    var labels :| IsHostName(t, labels);
    JoinedAscii(labels);
    JoinedIsPlain(labels);
    assert t[|labels[0]|] == '.';
  }

  lemma ColonInScheme(t: string, scheme: string)
    requires IsScheme(scheme) && scheme <= t
    ensures ':' in t
  {
    assert |"https://"| == 8 && |"http://"| == 7;
    var k := if Text.ToLower(scheme) == "https://" then 5 else 4;
    assert Text.ToLower(scheme)[k] == ':';
    assert scheme[k] == ':' && t[k] == ':';
  }

  lemma ColonInDisguise(t: string, scheme: string)
    requires (scheme == "hxxps://" || scheme == "hxxp://") && HasScheme(t, scheme)
    ensures ':' in t
  {
    assert |"hxxps://"| == 8 && |"hxxp://"| == 7;
    var k := if scheme == "hxxps://" then 5 else 4;
    assert Text.ToLower(t[..|scheme|])[k] == ':';
    assert t[k] == ':';
  }

  lemma AsciiIsWhole(t: string, n: nat)
    requires IsAscii(t)
    ensures !SplitsCharacter(t, n)
  {
    forall k ensures !SplitAt(t, n, k) {
      if 0 <= k < |t| {
        AsciiBytes(t[..k]);
        AsciiBytes(t[..k + 1]);
      }
    }
  }

  lemma DomainIsNothingElse(t: string)
    requires IsDomain(t)
    ensures HashKind(t).None? && UrlHost(t).None? && !HasScheme(t, "hxxps://") && !HasScheme(t, "hxxp://")
    ensures !SplitsCharacter(t, 7) && !SplitsCharacter(t, 8)
  {
    DomainIsPlain(t);
    var i :| 0 <= i < |t| && t[i] == '.';
    assert !IsHexDigit(t[i]);
    if UrlHost(t).Some? {
      NoSchemeNoHost(t);
      if |t| >= 8 && IsScheme(t[..8]) { ColonInScheme(t, t[..8]); } else { ColonInScheme(t, t[..7]); }
    }
    if HasScheme(t, "hxxps://") { ColonInDisguise(t, "hxxps://"); }
    if HasScheme(t, "hxxp://") { ColonInDisguise(t, "hxxp://"); }
    forall n: nat ensures !SplitsCharacter(t, n) { AsciiIsWhole(t, n); }
  }

  lemma DomainIsPrimary(t: string, ip: string -> Option<string>)
    requires IsDomain(t) && ip(t).None?
    ensures Primary(t, ReadingOf(t, ip)) == Entry(Domain, Text.ToLower(t))
  {
    DomainIsNothingElse(t);
  }

  lemma FangedDomainIsRefanged(token: string, t: string)
    requires Fanged(token, t, FANGS) && IsDomain(t)
    ensures Refang(token) == Some(t)
  {
    DomainIsPlain(t);
    DomainIsNothingElse(t);
    RefangUndoesFanging(token, t);
  }

  /** A domain, however it is fanged in what the user pastes, is listed as that domain in lower case,
      whenever the tokens are sorted and it is no address. */
  lemma FangedDomainIsListed(tokens: seq<string>, ts: seq<string>, ip: string -> Option<string>, i: nat, t: string)
    requires |ts| == |tokens| && i < |ts| && Admitted(ts, tokens, Admit)
    requires Fanged(tokens[i], t, FANGS) && IsDomain(t) && ip(t).None?
    ensures Text.ToLower(t) in Collect(EntriesOf(ts, t => ReadingOf(t, ip))).Of(Domain)
  {
    AdmittedIsRefanged(tokens[i]);
    FangedDomainIsRefanged(tokens[i], t);
    DomainIsPrimary(t, ip);
    OnePrimaryPerToken(ts, ip, i);
  }
}
