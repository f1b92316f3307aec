/** Ids in URL paths, as src/validation.rs checks and encodes them: what is put into a path as one
    segment is read out of it as that segment (RFC 3986). */
module PathSegments {
  import opened Wrappers
  import Text
  import opened Utf8

  // ------------------------------------------------------------------ encoding

  /** Unreserved characters (RFC 3986, section 2.3). */
  predicate IsUnreserved(b: Byte) {
    || '0' as int <= b <= '9' as int || 'A' as int <= b <= 'Z' as int || 'a' as int <= b <= 'z' as int
    || b == '-' as int || b == '.' as int || b == '_' as int || b == '~' as int
  }

  function HexDigit(d: nat): (c: char)
    requires d < 16
  {
    if d < 10 then ('0' as int + d) as char else ('A' as int + d - 10) as char
  }

  function EncodeByte(b: Byte): string {
    if IsUnreserved(b) then [b as char] else ['%', HexDigit(b / 16), HexDigit(b % 16)]
  }

  function EncodeBytes(bs: seq<Byte>): string {
    if bs == [] then [] else EncodeByte(bs[0]) + EncodeBytes(bs[1..])
  }

  function EncodePathSegment(segment: string): string {
    EncodeBytes(Encode(segment))
  }

  // ------------------------------------------------------------------ decoding

  /** Hexadecimal digits of either case (RFC 3986, section 2.1). */
  function HexValue(c: char): (d: Option<nat>)
    ensures d.Some? ==> d.value < 16
  {
    if '0' <= c <= '9' then Some(c as int - '0' as int)
    else if 'A' <= c <= 'F' then Some(c as int - 'A' as int + 10)
    else if 'a' <= c <= 'f' then Some(c as int - 'a' as int + 10)
    else None
  }

  function Prepend(b: Byte, more: Option<seq<Byte>>): Option<seq<Byte>> {
    if more.Some? then Some([b] + more.value) else None
  }

  function DecodeBytes(s: string): Option<seq<Byte>>
    decreases |s|
  {
    if s == [] then Some([])
    else if s[0] != '%' then (if s[0] as int < 0x80 then Prepend(s[0] as int, DecodeBytes(s[1..])) else None)
    else if |s| < 3 || HexValue(s[1]).None? || HexValue(s[2]).None? then None
    else Prepend(16 * HexValue(s[1]).value + HexValue(s[2]).value, DecodeBytes(s[3..]))
  }

  function DecodePathSegment(s: string): Option<string> {
    match DecodeBytes(s)
    case None => None
    case Some(bs) => Decode(bs)
  }

  lemma ByteReadsBack(b: Byte, rest: string)
    ensures DecodeBytes(EncodeByte(b) + rest) == Prepend(b, DecodeBytes(rest))
  {
    var s := EncodeByte(b) + rest;
    if IsUnreserved(b) {
      assert s[1..] == rest;
    } else {
      assert s[3..] == rest;
      assert HexValue(HexDigit(b / 16)) == Some(b / 16) && HexValue(HexDigit(b % 16)) == Some(b % 16);
    }
  }

  lemma {:induction false} BytesAreReadBack(bs: seq<Byte>)
    ensures DecodeBytes(EncodeBytes(bs)) == Some(bs)
  {
    if bs != [] {
      BytesAreReadBack(bs[1..]);
      assert [bs[0]] + bs[1..] == bs;
      ByteReadsBack(bs[0], EncodeBytes(bs[1..]));
    }
  }

  /** Whatever its characters, an encoded segment is read back, so no two texts share an encoding. */
  lemma SegmentReadsBack(segment: string)
    ensures DecodePathSegment(EncodePathSegment(segment)) == Some(segment)
  {
    BytesAreReadBack(Encode(segment));
    TextReadsBack(segment);
  }

  lemma EncodingIsInjective(a: string, b: string)
    requires EncodePathSegment(a) == EncodePathSegment(b)
    ensures a == b
  {
    SegmentReadsBack(a);
    SegmentReadsBack(b);
  }

  /** An encoded segment has unreserved characters, percent signs and nothing else. */
  predicate IsEncoded(s: string) {
    forall i :: 0 <= i < |s| ==> s[i] == '%' || (s[i] as int < 256 && IsUnreserved(s[i] as int))
  }

  lemma {:induction false} EncodedBytes(bs: seq<Byte>)
    ensures IsEncoded(EncodeBytes(bs))
  {
    if bs != [] { EncodedBytes(bs[1..]); }
  }

  const HEX := "0123456789ABCDEF"

  /** Letters, digits and four marks. */
  predicate Stays(b: Byte) {
    b as char in Text.UPPER || b as char in Text.LOWER || b as char in "0123456789" || b as char in "-._~"
  }

  lemma UnreservedIs(b: Byte)
    ensures IsUnreserved(b) <==> Stays(b)
  {
    Text.LetterIs(b as char);
    assert '0' as int <= b <= '9' as int <==> b as char in "0123456789";
    assert b as char in "-._~" <==> b == '-' as int || b == '.' as int || b == '_' as int || b == '~' as int;
  }

  /** One of the sixty-six unreserved characters stays; any other byte becomes a percent sign and its
      two hexadecimal digits, in upper case. */
  lemma ByteIsEncoded(b: Byte)
    ensures EncodeByte(b) ==
            if Stays(b) then [b as char] else ['%', HEX[b / 16], HEX[b % 16]]
  {
    UnreservedIs(b);
  }

  lemma {:induction false} UnreservedAsIs(s: string)
    requires forall i :: 0 <= i < |s| ==> s[i] as int < 0x80 && IsUnreserved(s[i] as int)
    ensures EncodePathSegment(s) == s
  {
    if s != [] {
      UnreservedAsIs(s[1..]);
      assert Encode(s) == [s[0] as int] + Encode(s[1..]);
      assert Encode(s)[1..] == Encode(s[1..]);
    }
  }

  // ------------------------------------------------------------------ ids

  datatype IdError = EmptyId | DotSegment | ControlCharacter

  predicate IsDot(s: string) {
    s == "." || s == ".."
  }

  predicate HasControl(s: string) {
    exists i :: 0 <= i < |s| && Text.IsControl(s[i])
  }

  function ValidateRequiredId(value: string): Result<string, IdError> {
    var trimmed := Text.Trim(value);
    if trimmed == "" then Err(EmptyId)
    else if IsDot(trimmed) then Err(DotSegment)
    else if HasControl(trimmed) then Err(ControlCharacter)
    else Ok(trimmed)
  }

  lemma AcceptedId(value: string)
    requires ValidateRequiredId(value).Ok?
    ensures var id := ValidateRequiredId(value).value;
      id != "" && !IsDot(id) && !HasControl(id) && !Text.IsWhitespace(id[0]) && !Text.IsWhitespace(id[|id| - 1])
  {
    var start := Text.TrimStart(value, Text.IsWhitespace);
    assert start != [] && Text.Trim(value)[0] == start[0];
  }

  predicate IsAround(value: string, before: string, id: string, after: string) {
    value == before + id + after && Text.All(before, Text.IsWhitespace) && Text.All(after, Text.IsWhitespace)
  }

  predicate IsId(id: string) {
    && id != "" && !Text.IsWhitespace(id[0]) && !Text.IsWhitespace(id[|id| - 1]) && id != "." && id != ".."
    && forall i :: 0 <= i < |id| ==> !(id[i] as int < 32 || 127 <= id[i] as int <= 159)
  }

  /** An id is accepted exactly as what is left of it without white space around it, if that is not
      empty, no dot segment and free of control characters. */
  lemma AcceptedExactly(value: string, id: string)
    ensures ValidateRequiredId(value) == Ok(id) <==>
              IsId(id) && exists before, after :: IsAround(value, before, id, after)
  {
    Text.TrimmedParts(value, Text.IsWhitespace);
    if before, after :| IsAround(value, before, id, after) {
      if IsId(id) { Text.TrimmedIs(before, id, after, Text.IsWhitespace); }
    }
    var b, a :| value == b + Text.Trim(value) + a && Text.All(b, Text.IsWhitespace) && Text.All(a, Text.IsWhitespace);
    assert IsAround(value, b, Text.Trim(value), a);
  }

  /** Otherwise what is wrong is said: nothing left, a dot segment, or a control character. */
  lemma RejectedExactly(value: string)
    ensures ValidateRequiredId(value) == Err(EmptyId) <==> Text.All(value, Text.IsWhitespace)
    ensures ValidateRequiredId(value) == Err(DotSegment) <==> Text.Trim(value) == "." || Text.Trim(value) == ".."
  {
    Text.TrimmedParts(value, Text.IsWhitespace);
    if Text.All(value, Text.IsWhitespace) {
      assert value == value + "" + "";
      Text.TrimmedIs(value, "", "", Text.IsWhitespace);
    }
  }

  /** An encoding is a dot segment only when the id itself is one. */
  lemma DotsStayDots(id: string)
    ensures IsDot(EncodePathSegment(id)) <==> IsDot(id)
  {
    UnreservedAsIs(".");
    UnreservedAsIs("..");
    if EncodePathSegment(id) == "." { EncodingIsInjective(id, "."); }
    if EncodePathSegment(id) == ".." { EncodingIsInjective(id, ".."); }
  }

  // ------------------------------------------------------------------ paths

  predicate IsSlash(c: char) {
    c == '/'
  }

  predicate NoSlash(segment: string) {
    forall i :: 0 <= i < |segment| ==> segment[i] != '/'
  }

  /** A segment that stands for itself in a path. */
  predicate IsPlain(segment: string) {
    !IsDot(segment) && NoSlash(segment)
  }

  predicate ArePlain(segments: seq<string>) {
    forall k :: 0 <= k < |segments| ==> IsPlain(segments[k])
  }

  function PathOf(segments: seq<string>): string {
    if segments == [] then "" else "/" + segments[0] + PathOf(segments[1..])
  }

  lemma EncodedHasNoSlash(id: string)
    ensures NoSlash(EncodePathSegment(id))
  {
    EncodedBytes(Encode(id));
  }

  predicate AreSegments(segments: seq<string>) {
    forall k :: 0 <= k < |segments| ==> NoSlash(segments[k])
  }

  /** Splitting at slashes gives the segments back, after the empty text before the first. */
  lemma {:induction false} SplitPath(first: string, segments: seq<string>)
    requires AreSegments([first] + segments)
    ensures Text.Split(first + PathOf(segments), IsSlash) == [first] + segments
    decreases |segments|
  {
    var s := first + PathOf(segments);
    assert ([first] + segments)[0] == first;
    if segments == [] {
      assert s == first;
      Text.SplitUnfold(s, IsSlash, |first|);
    } else {
      var rest := segments[0] + PathOf(segments[1..]);
      assert s[..|first|] == first && s[|first|] == '/' && s[|first| + 1..] == rest;
      Text.SplitUnfold(s, IsSlash, |first|);
      assert [segments[0]] + segments[1..] == segments;
      assert AreSegments(segments) by {
        assert forall k :: 0 <= k < |segments| ==> segments[k] == ([first] + segments)[k + 1];
      }
      SplitPath(segments[0], segments[1..]);
    }
  }

  // ------------------------------------------------------------------ dot segments

  /** The length of the first segment with the slash before it. */
  function FirstSegment(s: string): (n: nat)
    requires s != []
    ensures 1 <= n <= |s| && (forall i :: 1 <= i < n ==> s[i] != '/') && (n < |s| ==> s[n] == '/')
  {
    1 + Text.Leading(s[1..], c => !IsSlash(c))
  }

  /** The output without its last segment and the slash before it, if any. */
  function WithoutLast(s: string): (r: string)
    ensures |r| <= |s|
  {
    var n := Text.TrimmedLength(s, c => !IsSlash(c));
    if n == 0 then "" else s[..n - 1]
  }

  /** A whole segment `.` at `i`. */
  predicate DotAt(s: string, i: nat) {
    i < |s| && s[i] == '.' && (|s| == i + 1 || s[i + 1] == '/')
  }

  /** A whole segment `..` at `i`. */
  predicate DotDotAt(s: string, i: nat) {
    i + 1 < |s| && s[i] == '.' && s[i + 1] == '.' && (|s| == i + 2 || s[i + 2] == '/')
  }

  /** One step of dot-segment removal (RFC 3986, section 5.2.4): the rest of the input, and the output. */
  function Step(input: string, output: string): (r: (string, string))
    requires input != []
    ensures |r.0| < |input| && |r.0| + |r.1| <= |input| + |output|
  {
    if DotAt(input, 0) then (if |input| == 1 then "" else input[2..], output)
    else if DotDotAt(input, 0) then (if |input| == 2 then "" else input[3..], output)
    else if input[0] == '/' && DotAt(input, 1) then (if |input| == 2 then "/" else input[2..], output)
    else if input[0] == '/' && DotDotAt(input, 1) then (if |input| == 3 then "/" else input[3..], WithoutLast(output))
    else (input[FirstSegment(input)..], output + input[..FirstSegment(input)])
  }

  function RemoveDots(input: string, output: string): (r: string)
    ensures |r| <= |input| + |output|
    decreases |input|
  {
    if input == [] then output else RemoveDots(Step(input, output).0, Step(input, output).1)
  }

  /** What may follow a segment: nothing, or a slash. */
  predicate IsTailOfPath(tail: string) {
    tail == "" || tail[0] == '/'
  }

  lemma FirstSegmentIs(seg: string, tail: string)
    requires NoSlash(seg) && IsTailOfPath(tail)
    ensures FirstSegment("/" + seg + tail) == 1 + |seg|
  {
    var s := "/" + seg + tail;
    assert forall i :: 1 <= i <= |seg| ==> s[i] == seg[i - 1];
    assert tail != "" ==> s[1 + |seg|] == '/';
  }

  lemma PlainStep(seg: string, tail: string, output: string)
    requires IsPlain(seg) && IsTailOfPath(tail)
    ensures Step("/" + seg + tail, output) == (tail, output + ("/" + seg))
  {
    var s := "/" + seg + tail;
    assert s[0] == '/' && forall i :: 1 <= i <= |seg| ==> s[i] == seg[i - 1];
    assert |seg| < |s| - 1 ==> s[1 + |seg|] == '/';
    assert |seg| == 1 && seg[0] == '.' ==> seg == ".";
    assert |seg| == 2 && seg[0] == '.' && seg[1] == '.' ==> seg == "..";
    FirstSegmentIs(seg, tail);
    assert s[..1 + |seg|] == "/" + seg && s[1 + |seg|..] == tail;
  }

  lemma RemoveStep(input: string, output: string)
    requires input != []
    ensures RemoveDots(input, output) == RemoveDots(Step(input, output).0, Step(input, output).1)
  {
  }

  lemma PathIsTail(segments: seq<string>)
    ensures IsTailOfPath(PathOf(segments))
  {
  }

  lemma {:induction false} PathConcat(a: seq<string>, b: seq<string>)
    ensures PathOf(a + b) == PathOf(a) + PathOf(b)
  {
    if a == [] {
      assert a + b == b;
    } else {
      PathConcat(a[1..], b);
      assert (a + b)[1..] == a[1..] + b;
    }
  }

  lemma Regroup(seg: string, rest: string, tail: string, output: string)
    ensures "/" + seg + rest + tail == "/" + seg + (rest + tail)
    ensures output + ("/" + seg) + rest == output + ("/" + seg + rest)
  {
  }

  /** Plain segments go through unchanged. */
  lemma {:induction false} PlainAreMoved(segments: seq<string>, tail: string, output: string)
    requires ArePlain(segments) && IsTailOfPath(tail)
    ensures RemoveDots(PathOf(segments) + tail, output) == RemoveDots(tail, output + PathOf(segments))
    decreases |segments|
  {
    if segments == [] {
      assert PathOf(segments) + tail == tail && output + PathOf(segments) == output;
    } else {
      var seg, rest := segments[0], PathOf(segments[1..]);
      PathIsTail(segments[1..]);
      Regroup(seg, rest, tail, output);
      PlainStep(seg, rest + tail, output);
      RemoveStep("/" + seg + (rest + tail), output);
      PlainAreMoved(segments[1..], tail, output + ("/" + seg));
    }
  }

  lemma DotIsRemoved(seg: string, tail: string, output: string)
    requires IsDot(seg) && IsTailOfPath(tail)
    ensures |RemoveDots("/" + seg + tail, output)| < |"/" + seg + tail| + |output|
  {
    var s := "/" + seg + tail;
    assert s[0] == '/' && s[1] == '.' && (|seg| == 2 ==> s[2] == '.');
    assert tail != "" ==> s[1 + |seg|] == '/';
    assert if seg == "." then DotAt(s, 1) else DotDotAt(s, 1);
    RemoveStep(s, output);
  }

  // ------------------------------------------------------------------ an id in a path

  function PathWith(before: seq<string>, id: string, after: seq<string>): string {
    PathOf(before) + ("/" + EncodePathSegment(id) + PathOf(after))
  }

  lemma DotRemovalLeaves(before: seq<string>, seg: string, after: seq<string>)
    requires ArePlain(before) && ArePlain(after) && NoSlash(seg)
    ensures var path := PathOf(before) + ("/" + seg + PathOf(after)); RemoveDots(path, "") == path <==> !IsDot(seg)
  {
    var head, tail := PathOf(before), PathOf(after);
    PathIsTail(after);
    PlainAreMoved(before, "/" + seg + tail, "");
    assert "" + head == head;
    if IsDot(seg) {
      DotIsRemoved(seg, tail, head);
    } else {
      PlainStep(seg, tail, head);
      RemoveStep("/" + seg + tail, head);
      PlainAreMoved(after, "", head + ("/" + seg));
      Regroup(seg, tail, "", head);
      assert tail + "" == tail;
    }
  }

  /** Removing dot segments leaves a path with an encoded id as it is, if and only if the id is
      neither `.` nor `..`. */
  lemma DotRemovalLeavesPath(before: seq<string>, id: string, after: seq<string>)
    requires ArePlain(before) && ArePlain(after)
    ensures RemoveDots(PathWith(before, id, after), "") == PathWith(before, id, after) <==> !IsDot(id)
  {
    var enc := EncodePathSegment(id);
    DotsStayDots(id);
    EncodedHasNoSlash(id);
    DotRemovalLeaves(before, enc, after);
  }

  lemma PathOfThree(before: seq<string>, seg: string, after: seq<string>)
    ensures PathOf(before + [seg] + after) == PathOf(before) + ("/" + seg + PathOf(after))
  {
    PathConcat(before + [seg], after);
    PathConcat(before, [seg]);
    assert PathOf([seg]) == "/" + seg by { assert [seg][1..] == []; }
  }

  lemma Joined(a: seq<string>, b: seq<string>)
    requires AreSegments(a) && AreSegments(b)
    ensures AreSegments(a + b)
  {
  }

  lemma SplitThree(before: seq<string>, seg: string, after: seq<string>)
    requires ArePlain(before) && ArePlain(after) && NoSlash(seg)
    ensures Text.Split(PathOf(before + [seg] + after), IsSlash) == [""] + before + [seg] + after
  {
    var segments := before + [seg] + after;
    Joined(before, [seg]);
    Joined(before + [seg], after);
    Joined([""], segments);
    SplitPath("", segments);
    assert "" + PathOf(segments) == PathOf(segments);
    assert [""] + before + [seg] + after == [""] + segments;
  }

  /** An accepted id takes up exactly one segment of a path, from which it is read back, and the path
      means what it says. */
  lemma AcceptedIdIsOneSegment(before: seq<string>, value: string, after: seq<string>)
    requires ArePlain(before) && ArePlain(after) && ValidateRequiredId(value).Ok?
    ensures var id := ValidateRequiredId(value).value;
      var path := PathWith(before, id, after);
      && Text.Split(path, IsSlash) == [""] + before + [EncodePathSegment(id)] + after
      && DecodePathSegment(Text.Split(path, IsSlash)[1 + |before|]) == Some(id)
      && RemoveDots(path, "") == path
  {
    var id := ValidateRequiredId(value).value;
    AcceptedId(value);
    EncodedHasNoSlash(id);
    PathOfThree(before, EncodePathSegment(id), after);
    SplitThree(before, EncodePathSegment(id), after);
    SegmentReadsBack(id);
    DotRemovalLeavesPath(before, id, after);
  }
}
