/** The sweep over the tables an indicator can appear in, as src/prompts.rs generates it: legs whose
    lists are empty are left out, and that changes no result. */
module SweepQuery {
  import opened Indicators

  // ------------------------------------------------------------------ legs

  /** A leg's filter. `HasAny` is guarded: it holds of nothing when its list is empty. */
  datatype Filter =
    | In(column: string, kind: Kind)
    | InAnyCase(column: string, kind: Kind)
    | HasAny(column: string, kind: Kind)
    | Or(left: Filter, right: Filter)

  datatype Leg = Leg(table: string, filter: Filter, source: string, account: string)

  const ANY_HASH := Or(Or(In("SHA256", Sha256), In("SHA1", Sha1)), In("MD5", Md5))

  const INITIATOR_HASH := In("InitiatingProcessSHA1", Sha1)
  const PROCESS_HASH := Or(Or(ANY_HASH, In("InitiatingProcessSHA256", Sha256)), INITIATOR_HASH)

  const PROCESS_LEG := Leg("DeviceProcessEvents", PROCESS_HASH, "process", "AccountName")
  const FILE_LEG := Leg("DeviceFileEvents", ANY_HASH, "file", "InitiatingProcessAccountName")
  const IMAGE_LOAD_LEG := Leg("DeviceImageLoadEvents", ANY_HASH, "image-load", "InitiatingProcessAccountName")
  const ATTACHMENT_LEG := Leg("EmailAttachmentInfo", In("SHA256", Sha256), "email-attachment", "RecipientEmailAddress")
  const NETWORK_LEG := Leg("DeviceNetworkEvents", Or(In("RemoteIP", Ip), HasAny("RemoteUrl", Domain)), "network",
      "InitiatingProcessAccountName")
  const EMAIL_URL_LEG := Leg("EmailUrlInfo", Or(InAnyCase("UrlDomain", Domain), In("Url", Url)), "email-url", "")
  const URL_CLICK_LEG := Leg("UrlClickEvents", Or(In("Url", Url), HasAny("Url", Domain)), "url-click", "AccountUpn")
  const CLOUD_APP_LEG := Leg("CloudAppEvents", In("IPAddress", Ip), "cloud-app", "AccountDisplayName")

  const HASH_LEGS: seq<Leg> := [PROCESS_LEG, FILE_LEG, IMAGE_LOAD_LEG, ATTACHMENT_LEG]
  const NET_LEGS: seq<Leg> := [NETWORK_LEG, EMAIL_URL_LEG, URL_CLICK_LEG, CLOUD_APP_LEG]

  predicate HasHashes(ls: Lists) {
    ls.sha256 != [] || ls.sha1 != [] || ls.md5 != []
  }

  predicate HasNet(ls: Lists) {
    ls.ips != [] || ls.domains != [] || ls.urls != []
  }

  /** The legs of the generated query; none for `nothing to sweep`. */
  function Kept(ls: Lists): seq<Leg> {
    (if HasHashes(ls) then HASH_LEGS else []) + (if HasNet(ls) then NET_LEGS else [])
  }

  method SweepLegs(indicators: Indicators) returns (legs: seq<Leg>)
    ensures legs == Kept(indicators.Contents())
  {
    var hasHashes := !(indicators.sha256 == [] && indicators.sha1 == [] && indicators.md5 == []);
    var hasNet := !(indicators.ips == [] && indicators.domains == [] && indicators.urls == []);
    legs := [];
    if hasHashes {
      legs := legs + [PROCESS_LEG];
      legs := legs + [FILE_LEG];
      legs := legs + [IMAGE_LOAD_LEG];
      legs := legs + [ATTACHMENT_LEG];
    }
    ghost var hashLegs := legs;
    if hasNet {
      legs := legs + [NETWORK_LEG];
      legs := legs + [EMAIL_URL_LEG];
      legs := legs + [URL_CLICK_LEG];
      legs := legs + [CLOUD_APP_LEG];
    }
    assert legs == hashLegs + if hasNet then NET_LEGS else [];
  }

  // ------------------------------------------------------------------ what a query finds

  datatype Row = Row(time: int, columns: map<string, string>)

  type Dataset = map<string, seq<Row>>

  /** What the service's text operators mean: `has_any`, whatever it says of an empty list, and the
      equality of `in~`. */
  datatype Semantics = Semantics(hasAny: (string, seq<string>) -> bool, sameText: (string, string) -> bool)

  function Column(row: Row, column: string): string {
    if column in row.columns then row.columns[column] else ""
  }

  predicate IsAnyCase(s: string, list: seq<string>, sem: Semantics) {
    exists i :: 0 <= i < |list| && sem.sameText(s, list[i])
  }

  predicate Holds(f: Filter, row: Row, ls: Lists, sem: Semantics) {
    match f
    case In(column, kind) => Column(row, column) in ls.Of(kind)
    case InAnyCase(column, kind) => IsAnyCase(Column(row, column), ls.Of(kind), sem)
    case HasAny(column, kind) => |ls.Of(kind)| > 0 && sem.hasAny(Column(row, column), ls.Of(kind))
    case Or(left, right) => Holds(left, row, ls, sem) || Holds(right, row, ls, sem)
  }

  /** A row as the union sees it. */
  datatype Hit = Hit(source: string, account: string, row: Row)

  /** The account a leg shows, if it shows one. */
  function AccountIn(leg: Leg, row: Row): string {
    if leg.account == "" then "" else Column(row, leg.account)
  }

  function HitsAmong(leg: Leg, rows: seq<Row>, ls: Lists, since: int, sem: Semantics): seq<Hit> {
    if rows == [] then []
    else
      (if rows[0].time > since && Holds(leg.filter, rows[0], ls, sem)
       then [Hit(leg.source, AccountIn(leg, rows[0]), rows[0])] else [])
      + HitsAmong(leg, rows[1..], ls, since, sem)
  }

  function LegHits(leg: Leg, data: Dataset, ls: Lists, since: int, sem: Semantics): seq<Hit> {
    if leg.table in data then HitsAmong(leg, data[leg.table], ls, since, sem) else []
  }

  function Union(legs: seq<Leg>, data: Dataset, ls: Lists, since: int, sem: Semantics): seq<Hit> {
    if legs == [] then [] else LegHits(legs[0], data, ls, since, sem) + Union(legs[1..], data, ls, since, sem)
  }

  // ------------------------------------------------------------------ pruning

  /** Only lists of these kinds appear in a filter. */
  predicate Uses(f: Filter, kinds: set<Kind>) {
    match f
    case Or(left, right) => Uses(left, kinds) && Uses(right, kinds)
    case In(_, kind) => kind in kinds
    case InAnyCase(_, kind) => kind in kinds
    case HasAny(_, kind) => kind in kinds
  }

  lemma {:induction false} EmptyListsHoldNothing(f: Filter, kinds: set<Kind>, row: Row, ls: Lists, sem: Semantics)
    requires Uses(f, kinds) && forall kind :: kind in kinds ==> ls.Of(kind) == []
    ensures !Holds(f, row, ls, sem)
  {
    if f.Or? {
      EmptyListsHoldNothing(f.left, kinds, row, ls, sem);
      EmptyListsHoldNothing(f.right, kinds, row, ls, sem);
    }
  }

  lemma {:induction false} EmptyListsHitNothing(leg: Leg, kinds: set<Kind>, rows: seq<Row>, ls: Lists, since: int,
        sem: Semantics)
    requires Uses(leg.filter, kinds) && forall kind :: kind in kinds ==> ls.Of(kind) == []
    ensures HitsAmong(leg, rows, ls, since, sem) == []
  {
    if rows != [] {
      EmptyListsHoldNothing(leg.filter, kinds, rows[0], ls, sem);
      EmptyListsHitNothing(leg, kinds, rows[1..], ls, since, sem);
    }
  }

  lemma {:induction false} DroppedLegsHitNothing(legs: seq<Leg>, kinds: set<Kind>, data: Dataset, ls: Lists,
        since: int, sem: Semantics)
    requires forall i :: 0 <= i < |legs| ==> Uses(legs[i].filter, kinds)
    requires forall kind :: kind in kinds ==> ls.Of(kind) == []
    ensures Union(legs, data, ls, since, sem) == []
  {
    if legs != [] {
      if legs[0].table in data { EmptyListsHitNothing(legs[0], kinds, data[legs[0].table], ls, since, sem); }
      DroppedLegsHitNothing(legs[1..], kinds, data, ls, since, sem);
    }
  }

  lemma {:induction false} UnionConcat(a: seq<Leg>, b: seq<Leg>, data: Dataset, ls: Lists, since: int, sem: Semantics)
    ensures Union(a + b, data, ls, since, sem) == Union(a, data, ls, since, sem) + Union(b, data, ls, since, sem)
  {
    if a == [] {
      assert a + b == b;
    } else {
      assert (a + b)[1..] == a[1..] + b;
      UnionConcat(a[1..], b, data, ls, since, sem);
    }
  }

  const HASH_KINDS: set<Kind> := {Sha256, Sha1, Md5}
  const NET_KINDS: set<Kind> := {Ip, Domain, Url}

  lemma LegsUseTheirKinds()
    ensures forall i :: 0 <= i < |HASH_LEGS| ==> Uses(HASH_LEGS[i].filter, HASH_KINDS)
    ensures forall i :: 0 <= i < |NET_LEGS| ==> Uses(NET_LEGS[i].filter, NET_KINDS)
  {
    assert Uses(ANY_HASH, HASH_KINDS);
  }

  /** On every dataset the kept legs find, row by row, what all eight legs find; so every summary by
      source is the same. */
  lemma PruningKeepsMeaning(data: Dataset, ls: Lists, since: int, sem: Semantics)
    ensures Union(Kept(ls), data, ls, since, sem) == Union(HASH_LEGS + NET_LEGS, data, ls, since, sem)
  {
    LegsUseTheirKinds();
    UnionConcat(HASH_LEGS, NET_LEGS, data, ls, since, sem);
    UnionConcat(if HasHashes(ls) then HASH_LEGS else [], if HasNet(ls) then NET_LEGS else [], data, ls, since, sem);
    if !HasHashes(ls) { DroppedLegsHitNothing(HASH_LEGS, HASH_KINDS, data, ls, since, sem); }
    if !HasNet(ls) { DroppedLegsHitNothing(NET_LEGS, NET_KINDS, data, ls, since, sem); }
  }

  // ------------------------------------------------------------------ what is found where

  lemma {:induction false} HitsMember(leg: Leg, rows: seq<Row>, ls: Lists, since: int, sem: Semantics, h: Hit)
    ensures h in HitsAmong(leg, rows, ls, since, sem) <==>
              && h.row in rows && h.row.time > since && Holds(leg.filter, h.row, ls, sem)
              && h == Hit(leg.source, AccountIn(leg, h.row), h.row)
  {
    if rows != [] { HitsMember(leg, rows[1..], ls, since, sem, h); }
  }

  predicate IsHitOf(leg: Leg, data: Dataset, ls: Lists, since: int, sem: Semantics, h: Hit) {
    && leg.table in data && h.row in data[leg.table] && h.row.time > since && Holds(leg.filter, h.row, ls, sem)
    && h == Hit(leg.source, AccountIn(leg, h.row), h.row)
  }

  lemma {:induction false} UnionMember(legs: seq<Leg>, data: Dataset, ls: Lists, since: int, sem: Semantics, h: Hit)
    ensures h in Union(legs, data, ls, since, sem) <==>
              exists i :: 0 <= i < |legs| && IsHitOf(legs[i], data, ls, since, sem, h)
  {
    if legs != [] {
      var leg := legs[0];
      if leg.table in data { HitsMember(leg, data[leg.table], ls, since, sem, h); }
      UnionMember(legs[1..], data, ls, since, sem, h);
      if i :| 0 <= i < |legs| && IsHitOf(legs[i], data, ls, since, sem, h) {
        if i > 0 { assert IsHitOf(legs[1..][i - 1], data, ls, since, sem, h); }
      }
      if i :| 0 <= i < |legs[1..]| && IsHitOf(legs[1..][i], data, ls, since, sem, h) {
        assert IsHitOf(legs[i + 1], data, ls, since, sem, h);
      }
    }
  }

  predicate InTable(data: Dataset, table: string, since: int, row: Row) {
    table in data && row in data[table] && row.time > since
  }

  predicate HasHash(row: Row, ls: Lists) {
    || Column(row, "SHA256") in ls.sha256 || Column(row, "SHA1") in ls.sha1 || Column(row, "MD5") in ls.md5
  }

  /** What is found by a file's hash, table by table and column by column, and whose account it shows. */
  predicate IsFoundByHash(h: Hit, data: Dataset, ls: Lists, since: int) {
    var Hit(source, account, row) := h;
    || (source == "process" && InTable(data, "DeviceProcessEvents", since, row)
        && (HasHash(row, ls) || Column(row, "InitiatingProcessSHA256") in ls.sha256
            || Column(row, "InitiatingProcessSHA1") in ls.sha1)
        && account == Column(row, "AccountName"))
    || (source == "file" && InTable(data, "DeviceFileEvents", since, row) && HasHash(row, ls)
        && account == Column(row, "InitiatingProcessAccountName"))
    || (source == "image-load" && InTable(data, "DeviceImageLoadEvents", since, row) && HasHash(row, ls)
        && account == Column(row, "InitiatingProcessAccountName"))
    || (source == "email-attachment" && InTable(data, "EmailAttachmentInfo", since, row)
        && Column(row, "SHA256") in ls.sha256 && account == Column(row, "RecipientEmailAddress"))
  }

  /** And by an address, a domain or a URL. */
  predicate IsFoundByNet(h: Hit, data: Dataset, ls: Lists, since: int, sem: Semantics) {
    var Hit(source, account, row) := h;
    || (source == "network" && InTable(data, "DeviceNetworkEvents", since, row)
        && (Column(row, "RemoteIP") in ls.ips
            || (ls.domains != [] && sem.hasAny(Column(row, "RemoteUrl"), ls.domains)))
        && account == Column(row, "InitiatingProcessAccountName"))
    || (source == "email-url" && InTable(data, "EmailUrlInfo", since, row)
        && (IsAnyCase(Column(row, "UrlDomain"), ls.domains, sem) || Column(row, "Url") in ls.urls)
        && account == "")
    || (source == "url-click" && InTable(data, "UrlClickEvents", since, row)
        && (Column(row, "Url") in ls.urls || (ls.domains != [] && sem.hasAny(Column(row, "Url"), ls.domains)))
        && account == Column(row, "AccountUpn"))
    || (source == "cloud-app" && InTable(data, "CloudAppEvents", since, row)
        && Column(row, "IPAddress") in ls.ips && account == Column(row, "AccountDisplayName"))
  }

  lemma OrHolds(left: Filter, right: Filter, row: Row, ls: Lists, sem: Semantics)
    ensures Holds(Or(left, right), row, ls, sem) <==> Holds(left, row, ls, sem) || Holds(right, row, ls, sem)
  {
  }

  lemma HashHolds(row: Row, ls: Lists, sem: Semantics)
    ensures Holds(ANY_HASH, row, ls, sem) <==> HasHash(row, ls)
    ensures Holds(PROCESS_HASH, row, ls, sem) <==>
              || HasHash(row, ls) || Column(row, "InitiatingProcessSHA256") in ls.sha256
              || Column(row, "InitiatingProcessSHA1") in ls.sha1
  {
    OrHolds(In("SHA256", Sha256), In("SHA1", Sha1), row, ls, sem);
    OrHolds(ANY_HASH.left, ANY_HASH.right, row, ls, sem);
    OrHolds(ANY_HASH, In("InitiatingProcessSHA256", Sha256), row, ls, sem);
    OrHolds(PROCESS_HASH.left, PROCESS_HASH.right, row, ls, sem);
  }

  lemma HashLegs(data: Dataset, ls: Lists, since: int, sem: Semantics, h: Hit)
    ensures IsFoundByHash(h, data, ls, since) <==>
              || IsHitOf(PROCESS_LEG, data, ls, since, sem, h) || IsHitOf(FILE_LEG, data, ls, since, sem, h)
              || IsHitOf(IMAGE_LOAD_LEG, data, ls, since, sem, h) || IsHitOf(ATTACHMENT_LEG, data, ls, since, sem, h)
  {
    HashHolds(h.row, ls, sem);
  }

  lemma NetLegs(data: Dataset, ls: Lists, since: int, sem: Semantics, h: Hit)
    ensures IsFoundByNet(h, data, ls, since, sem) <==>
              || IsHitOf(NETWORK_LEG, data, ls, since, sem, h) || IsHitOf(EMAIL_URL_LEG, data, ls, since, sem, h)
              || IsHitOf(URL_CLICK_LEG, data, ls, since, sem, h) || IsHitOf(CLOUD_APP_LEG, data, ls, since, sem, h)
  {
    OrHolds(In("RemoteIP", Ip), HasAny("RemoteUrl", Domain), h.row, ls, sem);
    OrHolds(InAnyCase("UrlDomain", Domain), In("Url", Url), h.row, ls, sem);
    OrHolds(In("Url", Url), HasAny("Url", Domain), h.row, ls, sem);
  }

  /** What the generated query finds is exactly that, though legs are left out of it. */
  lemma SweepFindsExactly(data: Dataset, ls: Lists, since: int, sem: Semantics, h: Hit)
    ensures h in Union(Kept(ls), data, ls, since, sem) <==>
              IsFoundByHash(h, data, ls, since) || IsFoundByNet(h, data, ls, since, sem)
  {
    var legs := HASH_LEGS + NET_LEGS;
    PruningKeepsMeaning(data, ls, since, sem);
    UnionMember(legs, data, ls, since, sem, h);
    HashLegs(data, ls, since, sem, h);
    NetLegs(data, ls, since, sem, h);
    assert legs[0] == PROCESS_LEG && legs[1] == FILE_LEG && legs[2] == IMAGE_LOAD_LEG && legs[3] == ATTACHMENT_LEG;
    assert legs[4] == NETWORK_LEG && legs[5] == EMAIL_URL_LEG && legs[6] == URL_CLICK_LEG && legs[7] == CLOUD_APP_LEG;
  }

  // ------------------------------------------------------------------ nothing to sweep

  /** A leg that looks for a kind of value in a column. */
  predicate LooksFor(f: Filter, column: string, kind: Kind) {
    match f
    case In(c, k) => c == column && k == kind
    case InAnyCase(c, k) => c == column && k == kind
    case HasAny(_, _) => false
    case Or(left, right) => LooksFor(left, column, kind) || LooksFor(right, column, kind)
  }

  lemma {:induction false} LookedForIsFound(f: Filter, column: string, kind: Kind, row: Row, ls: Lists, sem: Semantics)
    requires LooksFor(f, column, kind) && Column(row, column) in ls.Of(kind) && forall s :: sem.sameText(s, s)
    ensures Holds(f, row, ls, sem)
  {
    if f.Or? {
      if LooksFor(f.left, column, kind) {
        LookedForIsFound(f.left, column, kind, row, ls, sem);
      } else {
        LookedForIsFound(f.right, column, kind, row, ls, sem);
      }
    }
  }

  lemma {:induction false} LegInUnion(legs: seq<Leg>, i: nat, data: Dataset, ls: Lists, since: int, sem: Semantics)
    requires i < |legs| && LegHits(legs[i], data, ls, since, sem) != []
    ensures Union(legs, data, ls, since, sem) != []
  {
    if i > 0 { LegInUnion(legs[1..], i - 1, data, ls, since, sem); }
  }

  /** One row in which a leg finds a listed value. */
  lemma ListedIsFound(legs: seq<Leg>, i: nat, column: string, kind: Kind, ls: Lists, since: int, sem: Semantics)
    requires i < |legs| && LooksFor(legs[i].filter, column, kind) && ls.Of(kind) != [] && forall s :: sem.sameText(s, s)
    ensures exists data :: Union(legs, data, ls, since, sem) != []
  {
    var row := Row(since + 1, map[column := ls.Of(kind)[0]]);
    var data := map[legs[i].table := [row]];
    LookedForIsFound(legs[i].filter, column, kind, row, ls, sem);
    assert HitsAmong(legs[i], [row], ls, since, sem) != [];
    LegInUnion(legs, i, data, ls, since, sem);
  }

  /** The query is replaced by `nothing to sweep` exactly when no dataset could have a hit. */
  lemma NothingToSweepExactly(ls: Lists, since: int, sem: Semantics)
    requires forall s :: sem.sameText(s, s)
    ensures Kept(ls) == [] <==> forall data :: Union(HASH_LEGS + NET_LEGS, data, ls, since, sem) == []
  {
    var legs := HASH_LEGS + NET_LEGS;
    if Kept(ls) == [] {
      forall data ensures Union(legs, data, ls, since, sem) == [] { PruningKeepsMeaning(data, ls, since, sem); }
    } else if ls.sha256 != [] {
      ListedIsFound(legs, 3, "SHA256", Sha256, ls, since, sem);
    } else if ls.sha1 != [] {
      assert LooksFor(ANY_HASH, "SHA1", Sha1);
      ListedIsFound(legs, 1, "SHA1", Sha1, ls, since, sem);
    } else if ls.md5 != [] {
      assert LooksFor(ANY_HASH, "MD5", Md5);
      ListedIsFound(legs, 1, "MD5", Md5, ls, since, sem);
    } else if ls.ips != [] {
      ListedIsFound(legs, 7, "IPAddress", Ip, ls, since, sem);
    } else if ls.domains != [] {
      ListedIsFound(legs, 5, "UrlDomain", Domain, ls, since, sem);
    } else {
      ListedIsFound(legs, 5, "Url", Url, ls, since, sem);
    }
  }
}
