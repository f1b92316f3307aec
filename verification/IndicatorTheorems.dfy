/** What the lists of sorted indicators hold. */
module IndicatorTheorems {
  import opened Wrappers
  import Text
  import opened Indicators

  // ------------------------------------------------------------------ nothing lost, nothing made up

  lemma {:induction false} OfKindMember(entries: seq<Entry>, kind: Kind, v: string)
    ensures v in OfKind(entries, kind) <==> Entry(kind, v) in entries
  {
    if entries != [] {
      var before, e := entries[..|entries| - 1], entries[|entries| - 1];
      OfKindMember(before, kind, v);
      assert entries == before + [e];
    }
  }

  predicate Yields(ts: seq<string>, read: string -> Reading, i: int, e: Entry) {
    0 <= i < |ts| && e in EntriesFor(ts[i], read(ts[i]))
  }

  lemma {:induction false} EntriesMember(ts: seq<string>, read: string -> Reading, e: Entry)
    ensures e in EntriesOf(ts, read) <==> exists i :: Yields(ts, read, i, e)
  {
    if ts != [] {
      var n := |ts| - 1;
      EntriesMember(ts[..n], read, e);
      if i :| Yields(ts[..n], read, i, e) { assert Yields(ts, read, i, e); }
      if e in EntriesFor(ts[n], read(ts[n])) { assert Yields(ts, read, n, e); }
      if i :| Yields(ts, read, i, e) {
        if i < n { assert Yields(ts[..n], read, i, e); }
      }
    }
  }

  /** A value is in the list of a kind exactly when some token yields it, and the list has each value
      once, in the order in which the tokens first yield them. */
  lemma ListsAreWhatTokensYield(ts: seq<string>, read: string -> Reading, kind: Kind)
    ensures var list := Collect(EntriesOf(ts, read)).Of(kind);
      && (forall v :: v in list <==> exists i :: Yields(ts, read, i, Entry(kind, v)))
      && InFirstOrder(list, OfKind(EntriesOf(ts, read), kind))
  {
    var entries := EntriesOf(ts, read);
    ListsByKind(entries, kind);
    FirstOccurrencesInOrder(OfKind(entries, kind));
    forall v ensures v in FirstOccurrences(OfKind(entries, kind)) <==> exists i :: Yields(ts, read, i, Entry(kind, v)) {
      OfKindMember(entries, kind, v);
      EntriesMember(ts, read, Entry(kind, v));
    }
  }

  /** A URL's host, as an address or a domain. */
  ghost predicate IsHostOf(e: Entry, t: string, ip: string -> Option<string>) {
    && UrlHost(t).Some?
    && var host := UrlHost(t).value;
      if ip(host).Some? then e == Entry(Ip, ip(host).value) else e == Entry(Domain, host) && IsDomain(host)
  }

  lemma OnlyUrlsYieldTwo(t: string, ip: string -> Option<string>, e: Entry)
    requires e in EntriesFor(t, ReadingOf(t, ip)) && e != Primary(t, ReadingOf(t, ip))
    ensures Primary(t, ReadingOf(t, ip)) == Entry(Url, t) && IsHostOf(e, t, ip)
  {
  }

  /** Every token is sorted under exactly one kind; what else it yields is its host, and only a URL
      has one. */
  lemma OnePrimaryPerToken(ts: seq<string>, ip: string -> Option<string>, i: nat)
    requires i < |ts|
    ensures var t, read := ts[i], t => ReadingOf(t, ip);
      var primary := Primary(t, read(t));
      && primary.value in Collect(EntriesOf(ts, read)).Of(primary.kind)
      && forall e :: Yields(ts, read, i, e) && e != primary ==> primary == Entry(Url, t) && IsHostOf(e, t, ip)
  {
    var t, read := ts[i], t => ReadingOf(t, ip);
    var primary := Primary(t, read(t));
    assert Yields(ts, read, i, primary);
    ListsAreWhatTokensYield(ts, read, primary.kind);
    forall e | Yields(ts, read, i, e) && e != primary ensures primary == Entry(Url, t) && IsHostOf(e, t, ip) {
      OnlyUrlsYieldTwo(t, ip, e);
    }
  }

  // ------------------------------------------------------------------ lists are well formed

  lemma {:induction false} BytesOfLower(s: string)
    ensures Text.ByteLength(Text.ToLower(s)) == Text.ByteLength(s)
  {
    if s != [] {
      BytesOfLower(s[1..]);
      assert Text.ToLower(s)[1..] == Text.ToLower(s[1..]);
    }
  }

  lemma LowerTwice(s: string)
    ensures IsLower(Text.ToLower(s)) && Text.ToLower(Text.ToLower(s)) == Text.ToLower(s)
  {
  }

  /** Piece by piece, one split is the other in lower case. */
  predicate ArePiecesOfLower(lower: seq<string>, pieces: seq<string>) {
    |lower| == |pieces| && forall i :: 0 <= i < |pieces| ==> lower[i] == Text.ToLower(pieces[i])
  }

  lemma SlicesOfLower(s: string, n: nat)
    requires n < |s|
    ensures Text.ToLower(s)[..n] == Text.ToLower(s[..n]) && Text.ToLower(s)[n + 1..] == Text.ToLower(s[n + 1..])
  {
  }

  lemma {:induction false} SplitOfLower(s: string)
    ensures ArePiecesOfLower(Text.Split(Text.ToLower(s), IsDot), Text.Split(s, IsDot))
    decreases |s|
  {
    var l := Text.ToLower(s);
    var n := Text.Leading(s, c => !IsDot(c));
    assert forall i :: 0 <= i < |s| ==> IsDot(s[i]) == IsDot(l[i]);
    Text.SplitUnfold(s, IsDot, n);
    Text.SplitUnfold(l, IsDot, n);
    if n < |s| {
      SlicesOfLower(s, n);
      SplitOfLower(s[n + 1..]);
    }
  }

  lemma LabelOfLower(l: string)
    requires IsLabel(l)
    ensures IsLabel(Text.ToLower(l))
  {
    BytesOfLower(l);
  }

  lemma LabelsOfLower(labels: seq<string>, lower: seq<string>)
    requires labels != [] && AreLabels(labels)
    requires ArePiecesOfLower(lower, labels)
    ensures AreLabels(lower)
  {
    assert lower[|lower| - 1] == Text.ToLower(labels[|labels| - 1]);
    forall i | 0 <= i < |lower| ensures IsLabel(lower[i]) { LabelOfLower(labels[i]); }
  }

  lemma FileNameOfLower(last: string)
    ensures IsFileName(Text.ToLower(last)) == IsFileName(last)
  {
    LowerTwice(last);
  }

  lemma LowerIsDomain(t: string)
    requires IsDomain(t)
    ensures IsDomain(Text.ToLower(t))
  {
    var labels := Text.Split(t, IsDot);
    SplitOfLower(t);
    BytesOfLower(t);
    LabelsOfLower(labels, Text.Split(Text.ToLower(t), IsDot));
    FileNameOfLower(labels[|labels| - 1]);
  }

  lemma HexOfLower(t: string)
    requires IsHex(t)
    ensures IsHex(Text.ToLower(t))
  {
  }

  /** What a reader may take for granted of a listed value. */
  ghost predicate WellFormed(kind: Kind, v: string, ip: string -> Option<string>) {
    match kind
    case Sha256 => IsHex(v) && IsLower(v) && Text.ByteLength(v) == 64
    case Sha1 => IsHex(v) && IsLower(v) && Text.ByteLength(v) == 40
    case Md5 => IsHex(v) && IsLower(v) && Text.ByteLength(v) == 32
    case Ip => exists t :: ip(t) == Some(v)
    case Domain => IsDomain(v) && IsLower(v)
    case Url => UrlHost(v).Some?
    case Unclassified => HashKind(v).None? && ip(v).None? && UrlHost(v).None? && !IsDomain(v)
  }

  lemma PrimaryWellFormed(t: string, ip: string -> Option<string>)
    ensures var e := Primary(t, ReadingOf(t, ip)); WellFormed(e.kind, e.value, ip)
  {
    var x := ReadingOf(t, ip);
    if x.hash.Some? {
      HexOfLower(t);
      LowerTwice(t);
      BytesOfLower(t);
    } else if x.address.None? && x.host.None? && x.isDomain {
      LowerIsDomain(t);
      LowerTwice(t);
    }
  }

  lemma ExtraWellFormed(t: string, ip: string -> Option<string>)
    ensures var e := Extra(ReadingOf(t, ip)); e.Some? ==> WellFormed(e.value.kind, e.value.value, ip)
  {
    if UrlHost(t).Some? { HostIsClean(t); }
  }

  /** Hashes and domains are listed lower-case and valid, URLs have a host, and an unclassified value
      is none of these. */
  lemma ListsAreWellFormed(ts: seq<string>, ip: string -> Option<string>, kind: Kind, v: string)
    requires v in Collect(EntriesOf(ts, t => ReadingOf(t, ip))).Of(kind)
    ensures WellFormed(kind, v, ip)
  {
    var read := t => ReadingOf(t, ip);
    ListsAreWhatTokensYield(ts, read, kind);
    var i :| Yields(ts, read, i, Entry(kind, v));
    PrimaryWellFormed(ts[i], ip);
    ExtraWellFormed(ts[i], ip);
  }
}
