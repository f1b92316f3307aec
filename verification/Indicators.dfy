/** Indicator classification, as src/prompts.rs sorts what a user pastes. */
module Indicators {
  import opened Wrappers
  import Text
  import opened IndicatorTokens

  const MAX_INDICATORS: nat := 500
  const MAX_TOKEN_BYTES: nat := 2048
  const MAX_DOMAIN_BYTES: nat := 253
  const MAX_LABEL_BYTES: nat := 63

  /** Extensions that make `name.ext` a file name rather than a domain. */
  const FILE_EXTENSIONS: seq<string> := [
    "exe", "dll", "sys", "scr", "msi", "bat", "cmd", "ps1", "psm1", "vbs", "vbe", "js", "jse",
    "hta", "lnk", "txt", "log", "tmp", "dat", "bin", "iso", "img", "doc", "docx", "xls", "xlsx",
    "pdf", "jar"
  ]

  // ------------------------------------------------------------------ what a token is

  predicate IsLetter(c: char) {
    'a' <= c <= 'z' || 'A' <= c <= 'Z'
  }

  predicate IsHexDigit(c: char) {
    Text.IsDigit(c) || 'a' <= c <= 'f' || 'A' <= c <= 'F'
  }

  predicate IsHex(s: string) {
    forall i :: 0 <= i < |s| ==> IsHexDigit(s[i])
  }

  predicate IsLabel(l: string) {
    && l != [] && Text.ByteLength(l) <= MAX_LABEL_BYTES && l[0] != '-' && l[|l| - 1] != '-'
    && forall i :: 0 <= i < |l| ==> IsLetter(l[i]) || Text.IsDigit(l[i]) || l[i] == '-'
  }

  predicate IsDot(c: char) {
    c == '.'
  }

  predicate IsOneOf(s: string, names: seq<string>) {
    names != [] && (s == names[0] || IsOneOf(s, names[1..]))
  }

  predicate IsFileName(last: string) {
    IsOneOf(Text.ToLower(last), FILE_EXTENSIONS)
  }

  /** The labels of a host name, of which the last is all letters. */
  predicate AreLabels(labels: seq<string>)
    requires labels != []
  {
    var last := labels[|labels| - 1];
    && |labels| >= 2
    && (forall i :: 0 <= i < |labels| ==> IsLabel(labels[i]))
    && forall i :: 0 <= i < |last| ==> IsLetter(last[i])
  }

  predicate IsDomain(t: string) {
    var labels := Text.Split(t, IsDot);
    !IsFileName(labels[|labels| - 1]) && Text.ByteLength(t) <= MAX_DOMAIN_BYTES && AreLabels(labels)
  }

  /** The text before the first of some characters. */
  function Until(s: string, stops: set<char>): (r: string)
    ensures r <= s && forall i :: 0 <= i < |r| ==> r[i] !in stops
    ensures |r| < |s| ==> s[|r|] in stops
  {
    s[..Text.Leading(s, c => c !in stops)]
  }

  /** The text after the last `c`, or all of it. */
  function AfterLast(s: string, c: char): (r: string)
    ensures |r| <= |s| && (forall i :: 0 <= i < |r| ==> r[i] == s[|s| - |r| + i] && r[i] != c)
    ensures |r| < |s| ==> s[|s| - |r| - 1] == c
  {
    s[Text.TrimmedLength(s, d => d != c)..]
  }

  /** The host of an authority without user: what is in brackets, or what stands before a port. */
  function HostAt(authority: string): string {
    if authority != "" && authority[0] == '[' then Until(authority[1..], {']'}) else Until(authority, {':'})
  }

  /** The host in what follows a URL's scheme, without user, port or brackets. */
  function HostIn(rest: string): string {
    HostAt(AfterLast(Until(rest, {'/', '?', '#'}), '@'))
  }

  /** What follows the scheme of an http(s) URL, lower-cased. */
  function AfterScheme(t: string): Option<string> {
    var lower := Text.ToLower(t);
    if "https://" <= lower then Some(lower[8..])
    else if "http://" <= lower then Some(lower[7..])
    else None
  }

  /** Host of an http(s) URL, lower-cased. */
  function UrlHost(t: string): Option<string> {
    match AfterScheme(t)
    case None => None
    case Some(rest) => if HostIn(rest) == [] then None else Some(HostIn(rest))
  }

  predicate IsLower(s: string) {
    forall i :: 0 <= i < |s| ==> Text.Lower(s[i]) == s[i]
  }

  /** Lower-case text without some characters. */
  predicate IsFree(s: string, without: set<char>) {
    IsLower(s) && forall i :: 0 <= i < |s| ==> s[i] !in without
  }

  lemma HostAtIsFree(authority: string)
    requires IsFree(authority, {'/', '?', '#', '@'})
    ensures IsFree(HostAt(authority), {'/', '?', '#', '@'})
  {
    if authority != [] { assert IsFree(authority[1..], {'/', '?', '#', '@'}); }
  }

  lemma HostInIsFree(rest: string)
    requires IsLower(rest)
    ensures IsFree(HostIn(rest), {'/', '?', '#', '@'})
  {
    assert IsFree(Until(rest, {'/', '?', '#'}), {'/', '?', '#'});
    var authority := AfterLast(Until(rest, {'/', '?', '#'}), '@');
    assert IsFree(authority, {'/', '?', '#', '@'});
    HostAtIsFree(authority);
  }

  lemma TailIsLower(s: string, n: nat)
    requires IsLower(s)
    ensures n <= |s| ==> IsLower(s[n..])
  {
  }

  lemma RestIsLower(t: string)
    ensures AfterScheme(t).Some? ==> IsLower(AfterScheme(t).value)
  {
    TailIsLower(Text.ToLower(t), 7);
    TailIsLower(Text.ToLower(t), 8);
  }

  /** A host is lower-case text in which no other part of the URL is left. */
  lemma HostIsClean(t: string)
    requires UrlHost(t).Some?
    ensures UrlHost(t).value != [] && IsFree(UrlHost(t).value, {'/', '?', '#', '@'})
  {
    RestIsLower(t);
    HostInIsFree(AfterScheme(t).value);
  }

  // ------------------------------------------------------------------ entries

  datatype Kind = Sha256 | Sha1 | Md5 | Ip | Domain | Url | Unclassified
  datatype Entry = Entry(kind: Kind, value: string)

  predicate IsHash(kind: Kind) {
    kind.Sha256? || kind.Sha1? || kind.Md5?
  }

  /** The kind of a hash, by its length. */
  function HashKind(t: string): (kind: Option<Kind>)
    ensures kind.Some? ==> IsHash(kind.value) && IsHex(t)
  {
    if !IsHex(t) then None
    else if Text.ByteLength(t) == 64 then Some(Sha256)
    else if Text.ByteLength(t) == 40 then Some(Sha1)
    else if Text.ByteLength(t) == 32 then Some(Md5)
    else None
  }

  /** What can be told from a refanged token, and from its host when it is a URL. */
  datatype Reading = Reading(hash: Option<Kind>, address: Option<string>, host: Option<string>,
      hostAddress: Option<string>, hostIsDomain: bool, isDomain: bool)

  /** `ip` gives the canonical text of an IP address. */
  function ReadingOf(t: string, ip: string -> Option<string>): (x: Reading)
    ensures x.hash.Some? ==> IsHash(x.hash.value)
  {
    var host := UrlHost(t);
    var hostAddress := if host.Some? then ip(host.value) else None;
    Reading(HashKind(t), ip(t), host, hostAddress, host.Some? && IsDomain(host.value), IsDomain(t))
  }

  /** A hash, an address, a URL, a domain, in this order, or none of them. */
  function Primary(t: string, x: Reading): Entry {
    if x.hash.Some? then Entry(x.hash.value, Text.ToLower(t))
    else if x.address.Some? then Entry(Ip, x.address.value)
    else if x.host.Some? then Entry(Url, t)
    else if x.isDomain then Entry(Domain, Text.ToLower(t))
    else Entry(Unclassified, t)
  }

  /** A URL's host is listed too, as an address or a domain. */
  function Extra(x: Reading): Option<Entry> {
    if x.hash.Some? || x.address.Some? || x.host.None? then None
    else if x.hostAddress.Some? then Some(Entry(Ip, x.hostAddress.value))
    else if x.hostIsDomain then Some(Entry(Domain, x.host.value))
    else None
  }

  function EntriesFor(t: string, x: Reading): seq<Entry> {
    [Primary(t, x)] + (if Extra(x).Some? then [Extra(x).value] else [])
  }

  function EntriesOf(ts: seq<string>, read: string -> Reading): seq<Entry> {
    if ts == [] then [] else EntriesOf(ts[..|ts| - 1], read) + EntriesFor(ts[|ts| - 1], read(ts[|ts| - 1]))
  }

  function OfKind(entries: seq<Entry>, kind: Kind): seq<string> {
    if entries == [] then []
    else
      var e := entries[|entries| - 1];
      OfKind(entries[..|entries| - 1], kind) + (if e.kind == kind then [e.value] else [])
  }

  /** A value joins a list, unless it is there. */
  function Listed(list: seq<string>, v: string): seq<string> {
    if v in list then list else list + [v]
  }

  /** Each value where it first occurs. */
  function FirstOccurrences(values: seq<string>): seq<string> {
    if values == [] then [] else Listed(FirstOccurrences(values[..|values| - 1]), values[|values| - 1])
  }

  lemma {:induction false} SameMembers(values: seq<string>)
    ensures forall v :: v in FirstOccurrences(values) <==> v in values
  {
    if values != [] { SameMembers(values[..|values| - 1]); }
  }

  function IndexOf(values: seq<string>, v: string): (i: nat)
    requires v in values
    ensures i < |values| && values[i] == v && forall j :: 0 <= j < i ==> values[j] != v
  {
    if values[0] == v then 0 else 1 + IndexOf(values[1..], v)
  }

  predicate Precedes(values: seq<string>, u: string, v: string) {
    u in values && v in values && IndexOf(values, u) < IndexOf(values, v)
  }

  /** `r` has the values of `values`, none twice, in the order of their first occurrences. */
  ghost predicate InFirstOrder(r: seq<string>, values: seq<string>) {
    && (forall v :: v in r <==> v in values)
    && forall i, j :: 0 <= i < j < |r| ==> Precedes(values, r[i], r[j])
  }

  lemma SameIndex(before: seq<string>, values: seq<string>, v: string)
    requires before <= values && v in before
    ensures IndexOf(values, v) == IndexOf(before, v)
  {
    var i := IndexOf(before, v);
    assert values[i] == before[i];
    var j := IndexOf(values, v);
    assert forall k :: 0 <= k < i ==> values[k] == before[k];
  }

  lemma LastIsNew(before: seq<string>, v: string)
    requires v !in before
    ensures IndexOf(before + [v], v) == |before|
  {
    var k := IndexOf(before + [v], v);
    assert forall j :: 0 <= j < |before| ==> before[j] in before;
  }

  lemma {:induction false} FirstOccurrencesInOrder(values: seq<string>)
    ensures InFirstOrder(FirstOccurrences(values), values)
  {
    if values != [] {
      var before, v := values[..|values| - 1], values[|values| - 1];
      var kept := FirstOccurrences(before);
      FirstOccurrencesInOrder(before);
      var r := FirstOccurrences(values);
      assert values == before + [v];
      forall i, j | 0 <= i < j < |r| ensures Precedes(values, r[i], r[j]) {
        assert r[i] == kept[i] && kept[i] in kept;
        SameIndex(before, values, r[i]);
        if j < |kept| {
          assert r[j] == kept[j] && kept[j] in kept && Precedes(before, kept[i], kept[j]);
          SameIndex(before, values, r[j]);
        } else {
          LastIsNew(before, v);
        }
      }
    }
  }

  lemma ValueAdded(values: seq<string>, v: string)
    ensures FirstOccurrences(values + [v]) == Listed(FirstOccurrences(values), v)
  {
    assert (values + [v])[..|values|] == values;
  }

  // ------------------------------------------------------------------ the lists

  datatype Lists = Lists(sha256: seq<string>, sha1: seq<string>, md5: seq<string>, ips: seq<string>,
      domains: seq<string>, urls: seq<string>, unclassified: seq<string>)
  {
    function Of(kind: Kind): seq<string> {
      match kind
      case Sha256 => sha256
      case Sha1 => sha1
      case Md5 => md5
      case Ip => ips
      case Domain => domains
      case Url => urls
      case Unclassified => unclassified
    }
  }

  function With(ls: Lists, e: Entry): Lists {
    match e.kind
    case Sha256 => ls.(sha256 := Listed(ls.sha256, e.value))
    case Sha1 => ls.(sha1 := Listed(ls.sha1, e.value))
    case Md5 => ls.(md5 := Listed(ls.md5, e.value))
    case Ip => ls.(ips := Listed(ls.ips, e.value))
    case Domain => ls.(domains := Listed(ls.domains, e.value))
    case Url => ls.(urls := Listed(ls.urls, e.value))
    case Unclassified => ls.(unclassified := Listed(ls.unclassified, e.value))
  }

  function Collect(entries: seq<Entry>): Lists {
    if entries == [] then Lists([], [], [], [], [], [], [])
    else With(Collect(entries[..|entries| - 1]), entries[|entries| - 1])
  }

  lemma OneListChanges(ls: Lists, e: Entry, kind: Kind)
    ensures With(ls, e).Of(kind) == if kind == e.kind then Listed(ls.Of(kind), e.value) else ls.Of(kind)
  {
  }

  /** Each list has the values of its kind, where they first occurred among all entries. */
  lemma {:induction false} ListsByKind(entries: seq<Entry>, kind: Kind)
    ensures Collect(entries).Of(kind) == FirstOccurrences(OfKind(entries, kind))
  {
    if entries != [] {
      var before, e := entries[..|entries| - 1], entries[|entries| - 1];
      ListsByKind(before, kind);
      OneListChanges(Collect(before), e, kind);
      if kind == e.kind {
        ValueAdded(OfKind(before, kind), e.value);
      } else {
        assert OfKind(before, kind) + [] == OfKind(before, kind);
      }
    }
  }

  lemma CollectSnoc(entries: seq<Entry>, e: Entry)
    ensures Collect(entries + [e]) == With(Collect(entries), e)
  {
    assert (entries + [e])[..|entries|] == entries;
  }

  function WithToken(ls: Lists, t: string, x: Reading): Lists {
    var one := With(ls, Primary(t, x));
    if Extra(x).Some? then With(one, Extra(x).value) else one
  }

  /** Entries of one more token. */
  lemma CollectToken(entries: seq<Entry>, t: string, x: Reading)
    ensures Collect(entries + EntriesFor(t, x)) == WithToken(Collect(entries), t, x)
  {
    CollectSnoc(entries, Primary(t, x));
    if Extra(x).Some? {
      CollectSnoc(entries + [Primary(t, x)], Extra(x).value);
      assert entries + EntriesFor(t, x) == entries + [Primary(t, x)] + [Extra(x).value];
    } else {
      assert EntriesFor(t, x) == [Primary(t, x)];
    }
  }

  method PushUnique(list: seq<string>, v: string) returns (r: seq<string>)
    ensures r == Listed(list, v)
  {
    r := list;
    if v !in list { r := list + [v]; }
  }

  class Indicators {
    var sha256: seq<string>
    var sha1: seq<string>
    var md5: seq<string>
    var ips: seq<string>
    var domains: seq<string>
    var urls: seq<string>
    var unclassified: seq<string>

    function Contents(): Lists
      reads this
    {
      Lists(sha256, sha1, md5, ips, domains, urls, unclassified)
    }

    constructor ()
      ensures Contents() == Collect([])
    {
      sha256, sha1, md5, ips, domains, urls, unclassified := [], [], [], [], [], [], [];
    }

    /** Sort one refanged token. */
    method Sort(t: string, x: Reading)
      requires x.hash.Some? ==> IsHash(x.hash.value)
      modifies this
      ensures Contents() == WithToken(old(Contents()), t, x)
    {
      if x.hash == Some(Sha256) {
        sha256 := PushUnique(sha256, Text.ToLower(t));
      } else if x.hash == Some(Sha1) {
        sha1 := PushUnique(sha1, Text.ToLower(t));
      } else if x.hash == Some(Md5) {
        md5 := PushUnique(md5, Text.ToLower(t));
      } else if x.address.Some? {
        ips := PushUnique(ips, x.address.value);
      } else if x.host.Some? {
        urls := PushUnique(urls, t);
        if x.hostAddress.Some? {
          ips := PushUnique(ips, x.hostAddress.value);
        } else if x.hostIsDomain {
          domains := PushUnique(domains, x.host.value);
        }
      } else if x.isDomain {
        domains := PushUnique(domains, Text.ToLower(t));
      } else {
        unclassified := PushUnique(unclassified, t);
      }
    }
  }

  datatype Failure = Empty | TooMany | InvalidValue | Stopped

  /** A character no token may have. */
  predicate IsUnsafe(c: char) {
    Text.IsControl(c) || c == '`' || c == '\\'
  }

  /** The refanged token, or why it is not sorted: too long, a character it must not have, or one cut
      in two. */
  function Admit(token: string): Result<string, Failure> {
    if Text.ByteLength(token) > MAX_TOKEN_BYTES || exists i :: 0 <= i < |token| && IsUnsafe(token[i])
    then Err(InvalidValue)
    else if Refang(token).None? then Err(Stopped)
    else Ok(Refang(token).value)
  }

  predicate Fails(tokens: seq<string>, admit: string -> Result<string, Failure>, i: int) {
    0 <= i < |tokens| && admit(tokens[i]).Err?
  }

  /** Token `i` is the first that fails, and this is why. */
  predicate FailsFirst(tokens: seq<string>, admit: string -> Result<string, Failure>, i: int, failure: Failure) {
    Fails(tokens, admit, i) && admit(tokens[i]).error == failure && forall j :: 0 <= j < i ==> !Fails(tokens, admit, j)
  }

  /** The tokens as they are sorted. */
  predicate Admitted(ts: seq<string>, tokens: seq<string>, admit: string -> Result<string, Failure>) {
    |ts| <= |tokens| && forall i :: 0 <= i < |ts| ==> admit(tokens[i]) == Ok(ts[i])
  }

  lemma OneMore(ts: seq<string>, t: string, read: string -> Reading)
    ensures EntriesOf(ts + [t], read) == EntriesOf(ts, read) + EntriesFor(t, read(t))
  {
    assert (ts + [t])[..|ts|] == ts;
  }

  lemma AdmittedMore(ts: seq<string>, tokens: seq<string>, t: string, admit: string -> Result<string, Failure>)
    requires Admitted(ts, tokens, admit) && |ts| < |tokens| && admit(tokens[|ts|]) == Ok(t)
    ensures Admitted(ts + [t], tokens, admit)
  {
  }

  /** What `admit` and `read` say of each token decides: the first token that fails is the whole
      answer; otherwise the entries are those of every token, in input order. */
  method SortAll(tokens: seq<string>, admit: string -> Result<string, Failure>, read: string -> Reading)
    returns (r: Result<Indicators, Failure>, ghost ts: seq<string>)
    requires forall t :: read(t).hash.Some? ==> IsHash(read(t).hash.value)
    ensures r.Err? ==> exists i :: FailsFirst(tokens, admit, i, r.error)
    ensures r.Ok? ==> |ts| == |tokens| && Admitted(ts, tokens, admit)
    ensures r.Ok? ==> fresh(r.value) && r.value.Contents() == Collect(EntriesOf(ts, read))
  {
    var out := new Indicators();
    ts := [];
    for n := 0 to |tokens|
      invariant fresh(out) && out.Contents() == Collect(EntriesOf(ts, read))
      invariant |ts| == n && Admitted(ts, tokens, admit)
      invariant forall i :: 0 <= i < n ==> !Fails(tokens, admit, i)
    {
      var admitted := admit(tokens[n]);
      if admitted.Err? {
        assert FailsFirst(tokens, admit, n, admitted.error);
        return Err(admitted.error), ts;
      }
      var t := admitted.value;
      out.Sort(t, read(t));
      CollectToken(EntriesOf(ts, read), t, read(t));
      OneMore(ts, t, read);
      AdmittedMore(ts, tokens, t, admit);
      ts := ts + [t];
    }
    r := Ok(out);
  }

  /** Indicators are sorted, all or none: they are when there are some but not too many tokens and
      each is admitted, and the lists are then those of the refanged tokens' entries. */
  method Classify(raw: string, ip: string -> Option<string>)
    returns (r: Result<Indicators, Failure>, ghost ts: seq<string>)
    ensures Tokens(raw) == [] <==> r == Err(Empty)
    ensures |Tokens(raw)| > 500 <==> r == Err(TooMany)
    ensures r.Err? && r.error !in {Empty, TooMany} ==> exists i :: FailsFirst(Tokens(raw), Admit, i, r.error)
    ensures r.Ok? ==> 0 < |Tokens(raw)| <= 500 && |ts| == |Tokens(raw)| && Admitted(ts, Tokens(raw), Admit)
    ensures r.Ok? ==> fresh(r.value) && r.value.Contents() == Collect(EntriesOf(ts, t => ReadingOf(t, ip)))
  {
    ts := [];
    var tokens := Tokens(raw);
    if tokens == [] { return Err(Empty), []; }
    if |tokens| > MAX_INDICATORS { return Err(TooMany), []; }
    r, ts := SortAll(tokens, Admit, t => ReadingOf(t, ip));
  }
}
