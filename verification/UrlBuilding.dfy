/** Building a URL path and a host name, and reading them back. */
module UrlBuilding {
  import opened Prelude

  // ----- characters

  /** Unicode `White_Space`, as `str::trim` uses it. */
  predicate IsWhitespace(c: char) {
    var n := c as int;
    || 0x09 <= n <= 0x0D || n == 0x20 || n == 0x85 || n == 0xA0 || n == 0x1680
    || 0x2000 <= n <= 0x200A || n == 0x2028 || n == 0x2029 || n == 0x202F || n == 0x205F || n == 0x3000
  }

  function TrimStart(s: string): string {
    if s != [] && IsWhitespace(s[0]) then TrimStart(s[1..]) else s
  }

  function TrimEnd(s: string): string {
    if s != [] && IsWhitespace(s[|s| - 1]) then TrimEnd(s[..|s| - 1]) else s
  }

  function Trim(s: string): string {
    TrimEnd(TrimStart(s))
  }

  // ----- paths as lists of parts

  /** The non-empty parts between slashes. */
  function Parts(s: string): seq<string> {
    PartsFrom(s, "")
  }

  function Flush(part: string): seq<string> {
    if part == "" then [] else [part]
  }

  /** `part` is what has been read of the current part. */
  function PartsFrom(s: string, part: string): seq<string>
    decreases |s|
  {
    if s == "" then Flush(part)
    else if s[0] == '/' then Flush(part) + PartsFrom(s[1..], "")
    else PartsFrom(s[1..], part + [s[0]])
  }

  lemma {:induction false} PartsAcrossSlash(a: string, part: string, b: string)
    ensures PartsFrom(a + "/" + b, part) == PartsFrom(a, part) + Parts(b)
    decreases |a|
  {
    if a == "" {
      assert a + "/" + b == "/" + b;
      assert ("/" + b)[1..] == b;
    } else {
      var s := a + "/" + b;
      assert s[1..] == a[1..] + "/" + b;
      if a[0] == '/' {
        PartsAcrossSlash(a[1..], "", b);
      } else {
        PartsAcrossSlash(a[1..], part + [a[0]], b);
      }
    }
  }

  /** A slash separates: the parts of both sides in order. */
  lemma PartsOfJoin(a: string, b: string)
    ensures Parts(a + "/" + b) == Parts(a) + Parts(b)
  {
    PartsAcrossSlash(a, "", b);
  }

  lemma PartsOfTrailingSlash(a: string)
    ensures Parts(a + "/") == Parts(a)
  {
    PartsOfJoin(a, "");
    assert a + "/" + "" == a + "/";
    assert Parts("") == [];
  }

  lemma PartsOfLeadingSlash(b: string)
    ensures Parts("/" + b) == Parts(b)
  {
    PartsOfJoin("", b);
    assert "" + "/" + b == "/" + b;
  }

  // ----- the path builder

  predicate EndsWithSlash(s: string) {
    s != "" && s[|s| - 1] == '/'
  }

  predicate StartsWithSlash(s: string) {
    s != "" && s[0] == '/'
  }

  class UrlPath {
    var inner: string

    constructor ()
      ensures inner == "/"
    {
      inner := "/";
    }

    method PushRaw(piece: string)
      modifies this
      ensures inner == PushedRaw(old(inner), piece)
    {
      var trimmed := Trim(piece);
      if trimmed == "" || trimmed == "/" {
        return;
      }
      if inner == "" {
        inner := "/";
      } else if !StartsWithSlash(inner) {
        inner := "/" + inner;
      }
      assert inner == Rooted(old(inner));
      if EndsWithSlash(inner) && StartsWithSlash(trimmed) {
        inner := inner[..|inner| - 1];
        inner := inner + trimmed;
      } else if !EndsWithSlash(inner) && !StartsWithSlash(trimmed) {
        inner := inner + "/";
        inner := inner + trimmed;
      } else {
        inner := inner + trimmed;
      }
      assert inner == Joined(Rooted(old(inner)), trimmed);
      if |inner| > 1 && EndsWithSlash(inner) {
        inner := inner[..|inner| - 1];
      }
    }

    method PushSegmentEncoded(segment: seq<byte>)
      modifies this
      ensures inner == PushedSegment(old(inner), segment)
    {
      if segment == [] || segment == [SLASH] {
        return;
      }
      var encoded := PercentEncode(segment);
      PushRaw(encoded);
    }
  }

  function Rooted(path: string): string {
    if path == "" then "/" else if !StartsWithSlash(path) then "/" + path else path
  }

  function Joined(path: string, piece: string): string {
    if EndsWithSlash(path) && StartsWithSlash(piece) then path[..|path| - 1] + piece
    else if !EndsWithSlash(path) && !StartsWithSlash(piece) then path + "/" + piece
    else path + piece
  }

  function WithoutTrailingSlash(path: string): string {
    if |path| > 1 && EndsWithSlash(path) then path[..|path| - 1] else path
  }

  function PushedRaw(path: string, piece: string): string {
    var trimmed := Trim(piece);
    if trimmed == "" || trimmed == "/" then path else WithoutTrailingSlash(Joined(Rooted(path), trimmed))
  }

  lemma JoinedParts(path: string, piece: string)
    requires path != "" && piece != ""
    ensures Parts(Joined(path, piece)) == Parts(path) + Parts(piece)
  {
    if EndsWithSlash(path) {
      var stem := path[..|path| - 1];
      assert path == stem + "/";
      PartsOfTrailingSlash(stem);
      if StartsWithSlash(piece) {
        assert piece == "/" + piece[1..];
        PartsOfLeadingSlash(piece[1..]);
        assert stem + piece == stem + "/" + piece[1..];
        PartsOfJoin(stem, piece[1..]);
      } else {
        PartsOfJoin(stem, piece);
      }
    } else if StartsWithSlash(piece) {
      assert piece == "/" + piece[1..];
      PartsOfLeadingSlash(piece[1..]);
      assert path + piece == path + "/" + piece[1..];
      PartsOfJoin(path, piece[1..]);
    } else {
      PartsOfJoin(path, piece);
    }
  }

  /**
  Pushing a raw piece appends exactly the non-empty parts of the trimmed piece,
  whatever slashes the path and the piece begin or end with.
  */
  lemma PushRawAppendsParts(path: string, piece: string)
    ensures Parts(PushedRaw(path, piece)) == Parts(path) + Parts(Trim(piece))
  {
    var trimmed, rooted := Trim(piece), Rooted(path);
    assert Parts("") == [];
    PartsOfLeadingSlash("");
    assert "/" + "" == "/";
    if trimmed != "" && trimmed != "/" {
      if path != "" && !StartsWithSlash(path) {
        PartsOfLeadingSlash(path);
      }
      JoinedParts(rooted, trimmed);
      var joined := Joined(rooted, trimmed);
      if |joined| > 1 && EndsWithSlash(joined) {
        assert joined == joined[..|joined| - 1] + "/";
        PartsOfTrailingSlash(joined[..|joined| - 1]);
      }
    }
  }

  // ----- the text of a path

  predicate AllWhitespace(s: string) {
    forall i :: 0 <= i < |s| ==> IsWhitespace(s[i])
  }

  lemma {:induction false} TrimStartDrops(s: string) returns (dropped: string)
    ensures s == dropped + TrimStart(s) && AllWhitespace(dropped)
    ensures TrimStart(s) != "" ==> !IsWhitespace(TrimStart(s)[0])
  {
    if s != "" && IsWhitespace(s[0]) {
      var rest := TrimStartDrops(s[1..]);
      dropped := [s[0]] + rest;
      assert s == [s[0]] + s[1..];
    } else {
      dropped := "";
    }
  }

  lemma {:induction false} TrimEndDrops(s: string) returns (dropped: string)
    ensures s == TrimEnd(s) + dropped && AllWhitespace(dropped)
    ensures TrimEnd(s) != "" ==> !IsWhitespace(TrimEnd(s)[|TrimEnd(s)| - 1])
  {
    if s != "" && IsWhitespace(s[|s| - 1]) {
      var rest := TrimEndDrops(s[..|s| - 1]);
      dropped := rest + [s[|s| - 1]];
      assert s == s[..|s| - 1] + [s[|s| - 1]];
    } else {
      dropped := "";
    }
  }

  /** Trimming takes white space off both ends, and all of it. */
  lemma TrimIsExact(s: string) returns (front: string, back: string)
    ensures s == front + Trim(s) + back && AllWhitespace(front) && AllWhitespace(back)
    ensures Trim(s) != "" ==> !IsWhitespace(Trim(s)[0]) && !IsWhitespace(Trim(s)[|Trim(s)| - 1])
  {
    front := TrimStartDrops(s);
    back := TrimEndDrops(TrimStart(s));
    assert Trim(s) != "" ==> Trim(s)[0] == TrimStart(s)[0];
  }

  function DropLeadingSlash(s: string): string {
    if StartsWithSlash(s) then s[1..] else s
  }

  function DropTrailingSlash(s: string): string {
    if EndsWithSlash(s) then s[..|s| - 1] else s
  }

  /**
  The path after a raw piece: the path that was there without a trailing slash,
  one slash, and the piece without a slash at either end.
  */
  lemma PushedRawText(path: string, piece: string)
    requires Trim(piece) != "" && Trim(piece) != "/" && StartsWithSlash(path)
    ensures PushedRaw(path, piece)
         == (var stem := DropTrailingSlash(path);
             var core := DropTrailingSlash(DropLeadingSlash(Trim(piece)));
             if stem == "" && core == "" then "/" else stem + "/" + core)
  {
    var trimmed := Trim(piece);
    var stem, body := DropTrailingSlash(path), DropLeadingSlash(trimmed);
    JoinedText(path, trimmed);
    var joined := Joined(path, trimmed);
    assert joined == stem + "/" + body;
    if body != "" {
      assert joined[|joined| - 1] == body[|body| - 1];
      if EndsWithSlash(body) {
        assert joined[..|joined| - 1] == stem + "/" + body[..|body| - 1];
      }
    }
  }

  lemma JoinedText(path: string, piece: string)
    requires StartsWithSlash(path) && piece != ""
    ensures Joined(path, piece) == DropTrailingSlash(path) + "/" + DropLeadingSlash(piece)
  {
    if StartsWithSlash(piece) {
      assert piece == "/" + piece[1..];
    }
    if EndsWithSlash(path) {
      assert path == path[..|path| - 1] + "/";
    }
  }

  /** Slashes at most one after the other. */
  predicate NoDoubleSlash(s: string) {
    forall i :: 0 <= i < |s| - 1 ==> !(s[i] == '/' && s[i + 1] == '/')
  }

  /** Begins with a slash, doubles none, and ends with none unless it is the root. */
  predicate CanonicalPath(s: string) {
    StartsWithSlash(s) && NoDoubleSlash(s) && (EndsWithSlash(s) ==> s == "/")
  }

  /** Raw pieces that double no slash keep a path canonical. */
  lemma RawPiecesKeepCanonical(path: string, piece: string)
    requires CanonicalPath(path) && NoDoubleSlash(Trim(piece))
    ensures CanonicalPath(PushedRaw(path, piece))
  {
    var trimmed := Trim(piece);
    if trimmed != "" && trimmed != "/" {
      PushedRawText(path, piece);
      var stem, core := DropTrailingSlash(path), DropTrailingSlash(DropLeadingSlash(trimmed));
      CoreIsTidy(trimmed);
      assert !EndsWithSlash(stem);
      JoinIsTidy(stem, core);
    }
  }

  lemma CoreIsTidy(s: string)
    requires NoDoubleSlash(s) && s != "" && s != "/"
    ensures var core := DropTrailingSlash(DropLeadingSlash(s));
            core != "" && NoDoubleSlash(core) && !StartsWithSlash(core) && !EndsWithSlash(core)
  {
    var body := DropLeadingSlash(s);
    assert NoDoubleSlash(body) by {
      assert forall i :: 0 <= i < |body| ==> body[i] == s[i + (|s| - |body|)];
    }
    if StartsWithSlash(s) {
      assert s[1] == body[0];
    }
    if EndsWithSlash(body) {
      assert |body| > 1;
      assert body[|body| - 2] != '/';
    }
  }

  lemma JoinIsTidy(stem: string, core: string)
    requires NoDoubleSlash(stem) && !EndsWithSlash(stem) && (stem == "" || StartsWithSlash(stem))
    requires core != "" && NoDoubleSlash(core) && !StartsWithSlash(core) && !EndsWithSlash(core)
    ensures CanonicalPath(stem + "/" + core)
  {
    var s, n := stem + "/" + core, |stem|;
    assert s[n] == '/' && s[n + 1] == core[0] && s[|s| - 1] == core[|core| - 1];
    assert forall i :: 0 <= i < n ==> s[i] == stem[i];
    assert forall i :: n < i < |s| ==> s[i] == core[i - n - 1];
    forall i | 0 <= i < |s| - 1
      ensures !(s[i] == '/' && s[i + 1] == '/')
    {
      if i > n {
        assert s[i] == core[i - n - 1] && s[i + 1] == core[i - n];
      } else if i < n - 1 {
        assert s[i] == stem[i] && s[i + 1] == stem[i + 1];
      }
    }
  }

  // ----- percent encoding

  const SLASH: byte := 0x2F
  const HEX := "0123456789ABCDEF"

  predicate Unreserved(b: byte) {
    || 0x41 <= b <= 0x5A || 0x61 <= b <= 0x7A || 0x30 <= b <= 0x39
    || b == 0x2D || b == 0x2E || b == 0x5F || b == 0x7E
  }

  function EncodeByte(b: byte): (s: string)
    ensures |s| > 0
  {
    if Unreserved(b) then [b as char] else ['%', HEX[b / 16], HEX[b % 16]]
  }

  function Encoded(bytes: seq<byte>): string {
    if bytes == [] then "" else EncodeByte(bytes[0]) + Encoded(bytes[1..])
  }

  lemma {:induction false} EncodedSnoc(bytes: seq<byte>, last: byte)
    ensures Encoded(bytes + [last]) == Encoded(bytes) + EncodeByte(last)
  {
    if bytes == [] {
      assert ([last])[1..] == [];
      assert bytes + [last] == [last];
    } else {
      var all := bytes + [last];
      assert all[0] == bytes[0] && all[1..] == bytes[1..] + [last];
      EncodedSnoc(bytes[1..], last);
    }
  }

  method PercentEncode(bytes: seq<byte>) returns (out: string)
    ensures out == Encoded(bytes)
  {
    out := "";
    for i := 0 to |bytes|
      invariant out == Encoded(bytes[..i])
    {
      var b := bytes[i];
      EncodedSnoc(bytes[..i], b);
      assert bytes[..i + 1] == bytes[..i] + [b];
      if Unreserved(b) {
        out := out + [b as char];
      } else {
        out := out + ['%'];
        out := out + [HEX[b / 16]];
        out := out + [HEX[b % 16]];
      }
    }
    assert bytes[..|bytes|] == bytes;
  }

  function HexValue(c: char): Option<nat> {
    if '0' <= c <= '9' then Some(c as int - '0' as int)
    else if 'A' <= c <= 'F' then Some(c as int - 'A' as int + 10)
    else if 'a' <= c <= 'f' then Some(c as int - 'a' as int + 10)
    else None
  }

  /** Percent-decoding by sections 2.1 and 2.3 of RFC 3986. */
  function Decoded(s: string): Option<seq<byte>>
    decreases |s|
  {
    if s == "" then Some([])
    else if s[0] == '%' then
      if |s| >= 3 && HexValue(s[1]).Some? && HexValue(s[2]).Some? then
        match Decoded(s[3..])
        case None => None
        case Some(rest) => Some([16 * HexValue(s[1]).value + HexValue(s[2]).value] + rest)
      else None
    else if s[0] as int < 256 then
      match Decoded(s[1..])
      case None => None
      case Some(rest) => Some([s[0] as int] + rest)
    else None
  }

  lemma HexRoundTrip(n: nat)
    requires n < 16
    ensures HexValue(HEX[n]) == Some(n) && HEX[n] != '/' && HEX[n] != '%' && !IsWhitespace(HEX[n])
  {
    assert HEX == ['0', '1', '2', '3', '4', '5', '6', '7', '8', '9', 'A', 'B', 'C', 'D', 'E', 'F'];
  }

  predicate PlainChars(s: string) {
    forall i :: 0 <= i < |s| ==> s[i] != '/' && !IsWhitespace(s[i])
  }

  lemma DecodePlainByte(b: byte, rest: string)
    requires Unreserved(b) && Decoded(rest).Some?
    ensures Decoded([b as char] + rest) == Some([b] + Decoded(rest).value)
  {
    var s := [b as char] + rest;
    assert s[1..] == rest && s[0] != '%';
  }

  lemma DecodeEscape(high: char, low: char, rest: string)
    requires HexValue(high).Some? && HexValue(low).Some? && Decoded(rest).Some?
    ensures Decoded(['%', high, low] + rest)
         == Some([16 * HexValue(high).value + HexValue(low).value] + Decoded(rest).value)
  {
    var s := ['%', high, low] + rest;
    assert s[3..] == rest && s[0] == '%' && s[1] == high && s[2] == low;
  }

  lemma EncodedByteIsPlain(b: byte)
    ensures PlainChars(EncodeByte(b))
  {
    HexRoundTrip(b / 16);
    HexRoundTrip(b % 16);
  }

  /** One encoded byte in front of a text is read back first. */
  lemma DecodeOneByte(b: byte, rest: string)
    requires Decoded(rest).Some?
    ensures Decoded(EncodeByte(b) + rest) == Some([b] + Decoded(rest).value)
  {
    if Unreserved(b) {
      DecodePlainByte(b, rest);
    } else {
      HexRoundTrip(b / 16);
      HexRoundTrip(b % 16);
      DecodeEscape(HEX[b / 16], HEX[b % 16], rest);
    }
  }

  lemma PlainAppend(a: string, b: string)
    requires PlainChars(a) && PlainChars(b)
    ensures PlainChars(a + b)
  {
  }

  /** Encoding can be undone, and its output has no slash and no white space. */
  lemma {:induction false} EncodeRoundTrip(bytes: seq<byte>)
    ensures Decoded(Encoded(bytes)) == Some(bytes)
    ensures PlainChars(Encoded(bytes))
    ensures Encoded(bytes) == "" <==> bytes == []
  {
    if bytes != [] {
      EncodeRoundTrip(bytes[1..]);
      DecodeOneByte(bytes[0], Encoded(bytes[1..]));
      EncodedByteIsPlain(bytes[0]);
      PlainAppend(EncodeByte(bytes[0]), Encoded(bytes[1..]));
      assert bytes == [bytes[0]] + bytes[1..];
    }
  }

  // ----- encoded segments

  function PushedSegment(path: string, segment: seq<byte>): string {
    if segment == [] || segment == [SLASH] then path else PushedRaw(path, Encoded(segment))
  }

  function PushAll(path: string, segments: seq<seq<byte>>): string {
    if segments == [] then path
    else PushedSegment(PushAll(path, segments[..|segments| - 1]), segments[|segments| - 1])
  }

  /** The segments that count: `""` and `"/"` are skipped. */
  function Kept(segments: seq<seq<byte>>): seq<seq<byte>> {
    if segments == [] then []
    else
      var last := segments[|segments| - 1];
      Kept(segments[..|segments| - 1]) + if last == [] || last == [SLASH] then [] else [last]
  }

  function DecodeAll(parts: seq<string>): seq<Option<seq<byte>>> {
    seq(|parts|, i requires 0 <= i < |parts| => Decoded(parts[i]))
  }

  function Present(segments: seq<seq<byte>>): seq<Option<seq<byte>>> {
    seq(|segments|, i requires 0 <= i < |segments| => Some(segments[i]))
  }

  lemma TrimPlain(s: string)
    requires PlainChars(s)
    ensures Trim(s) == s
  {
  }

  lemma {:induction false} PartsOfPlain(s: string, part: string)
    requires PlainChars(s)
    ensures PartsFrom(s, part) == Flush(part + s)
    decreases |s|
  {
    if s == "" {
      assert part + s == part;
    } else {
      PartsOfPlain(s[1..], part + [s[0]]);
      assert part + [s[0]] + s[1..] == part + s;
    }
  }

  /** One encoded segment is one part, and that part decodes to the segment. */
  lemma PushSegmentAppendsOne(path: string, segment: seq<byte>)
    requires segment != [] && segment != [SLASH]
    ensures Parts(PushedSegment(path, segment)) == Parts(path) + [Encoded(segment)]
    ensures Decoded(Encoded(segment)) == Some(segment)
  {
    EncodeRoundTrip(segment);
    PushRawAppendsParts(path, Encoded(segment));
    TrimPlain(Encoded(segment));
    PartsOfPlain(Encoded(segment), "");
    assert "" + Encoded(segment) == Encoded(segment);
  }

  lemma DecodeOneMore(parts: seq<string>, part: string, segments: seq<seq<byte>>, segment: seq<byte>)
    requires DecodeAll(parts) == Present(segments) && Decoded(part) == Some(segment)
    ensures DecodeAll(parts + [part]) == Present(segments + [segment])
  {
    assert |parts| == |DecodeAll(parts)| == |Present(segments)| == |segments|;
    forall i | 0 <= i < |parts|
      ensures Decoded(parts[i]) == Some(segments[i])
    {
      assert DecodeAll(parts)[i] == Present(segments)[i];
    }
  }

  /**
  A path built from encoded segments reads back as those segments: split it on
  slashes, decode each part, and the list is the pushed one without `""` and `"/"`.
  */
  lemma {:induction false} PathReadsBack(segments: seq<seq<byte>>)
    ensures DecodeAll(Parts(PushAll("/", segments))) == Present(Kept(segments))
  {
    if segments == [] {
      PartsOfLeadingSlash("");
      assert "/" + "" == "/";
      assert Parts("/") == [];
    } else {
      var init, last := segments[..|segments| - 1], segments[|segments| - 1];
      PathReadsBack(init);
      if last != [] && last != [SLASH] {
        PushSegmentAppendsOne(PushAll("/", init), last);
        DecodeOneMore(Parts(PushAll("/", init)), Encoded(last), Kept(init), last);
      }
    }
  }

  /** Each segment behind a slash of its own. */
  function Rendered(segments: seq<seq<byte>>): string {
    if segments == [] then ""
    else Rendered(segments[..|segments| - 1]) + "/" + Encoded(segments[|segments| - 1])
  }

  function Canonical(segments: seq<seq<byte>>): string {
    if segments == [] then "/" else Rendered(segments)
  }

  lemma RenderedSnoc(segments: seq<seq<byte>>, last: seq<byte>)
    ensures Canonical(segments + [last]) == Rendered(segments) + "/" + Encoded(last)
  {
    var all := segments + [last];
    assert all[..|all| - 1] == segments;
  }

  /** A plain piece goes behind one slash of its own. */
  lemma PushPlainPiece(path: string, piece: string)
    requires piece != "" && PlainChars(piece)
    requires StartsWithSlash(path) && (path == "/" || !EndsWithSlash(path))
    ensures PushedRaw(path, piece) == (if path == "/" then "" else path) + "/" + piece
    ensures !EndsWithSlash(PushedRaw(path, piece))
  {
    TrimPlain(piece);
    assert !StartsWithSlash(piece) && !EndsWithSlash(piece);
    assert "" + "/" + piece == "/" + piece;
    var joined := Joined(path, piece);
    assert joined[|joined| - 1] == piece[|piece| - 1];
  }

  lemma PushOntoCanonical(path: string, segment: seq<byte>)
    requires segment != [] && segment != [SLASH]
    requires StartsWithSlash(path) && (path == "/" || !EndsWithSlash(path))
    ensures PushedSegment(path, segment) == (if path == "/" then "" else path) + "/" + Encoded(segment)
    ensures !EndsWithSlash(PushedSegment(path, segment))
  {
    EncodeRoundTrip(segment);
    PushPlainPiece(path, Encoded(segment));
  }

  /** One slash in front of every segment, none at the end, and `/` for no segments. */
  predicate IsPathOf(path: string, segments: seq<seq<byte>>) {
    path == Canonical(segments) && StartsWithSlash(path) && (segments != [] ==> !EndsWithSlash(path))
  }

  lemma PushKeepsCanonical(path: string, segments: seq<seq<byte>>, segment: seq<byte>)
    requires IsPathOf(path, segments) && segment != [] && segment != [SLASH]
    ensures IsPathOf(PushedSegment(path, segment), segments + [segment])
  {
    PushOntoCanonical(path, segment);
    RenderedSnoc(segments, segment);
    assert (if path == "/" then "" else path) == Rendered(segments) by {
      assert segments != [] ==> path != "/";
    }
  }

  /** The text of a path built from encoded segments is the canonical one, whatever was skipped in between. */
  lemma {:induction false} PathIsCanonical(segments: seq<seq<byte>>)
    ensures IsPathOf(PushAll("/", segments), Kept(segments))
  {
    if segments != [] {
      var init, last := segments[..|segments| - 1], segments[|segments| - 1];
      PathIsCanonical(init);
      if last == [] || last == [SLASH] {
        assert Kept(segments) == Kept(init);
      } else {
        PushKeepsCanonical(PushAll("/", init), Kept(init), last);
      }
    }
  }

  // ----- host names

  datatype LabelSource = StaticLabel | PlaceholderLabel(name: string) | MixedLabel

  datatype HostLabel = HostLabel(value: string, source: LabelSource)

  datatype HostSpec = Absolute(host: string) | SuffixDomain(labels: seq<HostLabel>)

  datatype InvalidReason =
    | EmptyName
    | ContainsDot
    | ContainsSlash
    | ContainsScheme
    | ContainsWhitespace
    | StartsOrEndsDash
    | InvalidByte(b: byte)
    | AbsoluteModePushLabel

  datatype HostError = HostError(text: string, index: nat, placeholder: Option<string>, reason: InvalidReason)

  predicate LabelChar(c: char) {
    'A' <= c <= 'Z' || 'a' <= c <= 'z' || '0' <= c <= '9' || c == '-'
  }

  /** The first byte of a character in UTF-8. */
  function LeadByte(c: char): byte {
    var n := c as int;
    if n < 0x80 then n
    else if n < 0x800 then 0xC0 + n / 0x40
    else if n < 0x10000 then 0xE0 + n / 0x1000
    else 0xF0 + n / 0x40000
  }

  function FirstBadChar(s: string): (bad: Option<char>)
    ensures bad.None? <==> forall i :: 0 <= i < |s| ==> LabelChar(s[i])
  {
    if s == "" then None
    else if !LabelChar(s[0]) then Some(s[0])
    else
      assert forall i :: 1 <= i < |s| ==> s[i] == s[1..][i - 1];
      FirstBadChar(s[1..])
  }

  /** The checks of one label, in order. */
  function CheckLabel(s: string): Option<InvalidReason> {
    if s == "" then Some(EmptyName)
    else if '.' in s then Some(ContainsDot)
    else if '/' in s then Some(ContainsSlash)
    else if s[0] == '-' || s[|s| - 1] == '-' then Some(StartsOrEndsDash)
    else if FirstBadChar(s).Some? then Some(InvalidByte(LeadByte(FirstBadChar(s).value)))
    else None
  }

  predicate ValidLabel(s: string) {
    s != "" && s[0] != '-' && s[|s| - 1] != '-' && forall i :: 0 <= i < |s| ==> LabelChar(s[i])
  }

  predicate HasScheme(s: string) {
    exists i :: 0 <= i < |s| && "://" <= s[i..]
  }

  predicate HasWhitespace(s: string) {
    exists i :: 0 <= i < |s| && IsWhitespace(s[i])
  }

  /** The checks of an absolute host, in order. */
  function CheckAbsolute(s: string): Option<InvalidReason> {
    if s == "" then Some(EmptyName)
    else if HasScheme(s) then Some(ContainsScheme)
    else if '@' in s then Some(InvalidByte(0x40))
    else if '?' in s then Some(InvalidByte(0x3F))
    else if '#' in s then Some(InvalidByte(0x23))
    else if '\\' in s then Some(InvalidByte(0x5C))
    else if HasWhitespace(s) then Some(ContainsWhitespace)
    else if '/' in s then Some(ContainsSlash)
    else None
  }

  /** A character that cannot end the host part of a URL. */
  predicate HostChar(c: char) {
    c != '@' && c != '?' && c != '#' && c != '\\' && c != '/' && !IsWhitespace(c)
  }

  predicate CleanHost(s: string) {
    s != "" && forall i :: 0 <= i < |s| ==> HostChar(s[i])
  }

  /** An absolute host passes its checks exactly when it is clean. */
  lemma AbsoluteValidIff(s: string)
    ensures CheckAbsolute(s).None? <==> CleanHost(s)
  {
    if HasScheme(s) {
      var i :| 0 <= i < |s| && "://" <= s[i..];
      assert s[i + 1] == s[i..][1] == '/';
    }
  }

  /** The reason given for a bad label is true of it, and a bad byte is the first byte of its first bad character. */
  lemma LabelReasonIsTrue(s: string)
    requires CheckLabel(s).Some?
    ensures match CheckLabel(s).value
            case EmptyName => |s| == 0
            case ContainsDot => '.' in s
            case ContainsSlash => '/' in s && '.' !in s
            case StartsOrEndsDash => |s| > 0 && (s[0] == '-' || s[|s| - 1] == '-')
            case InvalidByte(b) =>
              exists i :: 0 <= i < |s| && !LabelChar(s[i]) && b == LeadByte(s[i])
                          && forall j :: 0 <= j < i ==> LabelChar(s[j])
            case _ => false
  {
    if CheckLabel(s).value.InvalidByte? {
      var i := FirstBadIndex(s);
    }
  }

  lemma {:induction false} FirstBadIndex(s: string) returns (i: nat)
    requires FirstBadChar(s).Some?
    ensures i < |s| && s[i] == FirstBadChar(s).value && !LabelChar(s[i]) && forall j :: 0 <= j < i ==> LabelChar(s[j])
  {
    if !LabelChar(s[0]) {
      i := 0;
    } else {
      i := FirstBadIndex(s[1..]);
      i := i + 1;
      assert forall j :: 1 <= j < i ==> s[j] == s[1..][j - 1];
    }
  }

  /** The first byte of an ASCII character is the character; every other one begins with two set bits. */
  lemma LeadByteIsUtf8(c: char)
    ensures c as int < 128 ==> LeadByte(c) == c as int
    ensures c as int >= 128 ==> 0xC2 <= LeadByte(c) <= 0xF4
  {
  }

  function PlaceholderOf(part: HostLabel): Option<string> {
    if part.source.PlaceholderLabel? then Some(part.source.name) else None
  }

  class HostParts {
    var spec: HostSpec
    var absolutePushAttempt: Option<HostLabel>

    constructor ()
      ensures spec == SuffixDomain([]) && absolutePushAttempt == None
    {
      spec, absolutePushAttempt := SuffixDomain([]), None;
    }

    method SetAbsolute(host: string)
      modifies this
      ensures spec == Absolute(host) && absolutePushAttempt == None
    {
      spec, absolutePushAttempt := Absolute(host), None;
    }

    /** In absolute mode the first pushed label is remembered, so that validation can refuse it. */
    method PushLabel(part: HostLabel)
      modifies this
      ensures old(spec).SuffixDomain? ==>
                spec == SuffixDomain(old(spec).labels + [part]) && absolutePushAttempt == old(absolutePushAttempt)
      ensures old(spec).Absolute? ==>
                && spec == old(spec) && absolutePushAttempt.Some?
                && (old(absolutePushAttempt).Some? ==> absolutePushAttempt == old(absolutePushAttempt))
                && (old(absolutePushAttempt).None? ==> absolutePushAttempt == Some(part))
    {
      match spec {
        case SuffixDomain(labels) => spec := SuffixDomain(labels + [part]);
        case Absolute(_) =>
          if absolutePushAttempt.None? {
            absolutePushAttempt := Some(part);
          }
      }
    }

    predicate Valid()
      reads this
    {
      match spec
      case Absolute(host) => absolutePushAttempt.None? && CleanHost(host)
      case SuffixDomain(labels) => forall i :: 0 <= i < |labels| ==> ValidLabel(labels[i].value)
    }

    /** No error exactly for valid parts; an error names the first offence. */
    method Validate() returns (error: Option<HostError>)
      ensures error.None? <==> Valid()
      ensures error.Some? && spec.SuffixDomain? ==>
                var k := error.value.index;
                && k < |spec.labels| && (forall i :: 0 <= i < k ==> ValidLabel(spec.labels[i].value))
                && CheckLabel(spec.labels[k].value) == Some(error.value.reason)
                && error.value.text == spec.labels[k].value && error.value.placeholder == PlaceholderOf(spec.labels[k])
      ensures error.Some? && spec.Absolute? && absolutePushAttempt.Some? ==>
                error.value == HostError(absolutePushAttempt.value.value, 0, PlaceholderOf(absolutePushAttempt.value),
                                         AbsoluteModePushLabel)
      ensures error.Some? && spec.Absolute? && absolutePushAttempt.None? ==>
                Some(error.value.reason) == CheckAbsolute(spec.host) && error.value.text == spec.host
    {
      match spec {
        case Absolute(host) =>
          AbsoluteValidIff(host);
          if absolutePushAttempt.Some? {
            var part := absolutePushAttempt.value;
            return Some(HostError(part.value, 0, PlaceholderOf(part), AbsoluteModePushLabel));
          }
          var reason := CheckAbsolute(host);
          return if reason.Some? then Some(HostError(host, 0, None, reason.value)) else None;
        case SuffixDomain(labels) =>
          for index := 0 to |labels|
            invariant forall i :: 0 <= i < index ==> ValidLabel(labels[i].value)
          {
            var part := labels[index];
            var reason := CheckLabel(part.value);
            if reason.Some? {
              assert !ValidLabel(part.value);
              return Some(HostError(part.value, index, PlaceholderOf(part), reason.value));
            }
          }
          return None;
      }
    }

    method Join(domain: string) returns (host: string)
      ensures host == JoinedHost(spec, domain)
      ensures spec.Absolute? ==> host == spec.host
      ensures spec.SuffixDomain? ==> host == Dotted(Values(spec.labels)) + domain
    {
      if spec.SuffixDomain? {
        JoinIsDotted(Values(spec.labels), domain);
      }
      match spec {
        case Absolute(h) => return h;
        case SuffixDomain(labels) =>
          if labels == [] {
            return domain;
          }
          host := "";
          for i := 0 to |labels|
            invariant host == Display(Values(labels[..i]))
          {
            if i > 0 {
              host := host + ".";
            }
            host := host + labels[i].value;
            DisplaySnoc(Values(labels[..i]), labels[i].value);
            assert Values(labels[..i + 1]) == Values(labels[..i]) + [labels[i].value];
          }
          assert labels[..|labels|] == labels;
          host := host + "." + domain;
      }
    }
  }

  function Values(labels: seq<HostLabel>): seq<string> {
    seq(|labels|, i requires 0 <= i < |labels| => labels[i].value)
  }

  function JoinedHost(spec: HostSpec, domain: string): string {
    match spec
    case Absolute(host) => host
    case SuffixDomain(labels) => Join(Values(labels), domain)
  }

  lemma {:induction false} DisplaySnoc(labels: seq<string>, last: string)
    ensures Display(labels + [last]) == (if labels == [] then "" else Display(labels) + ".") + last
  {
    if labels != [] {
      var all := labels + [last];
      assert all[1..] == labels[1..] + [last];
      DisplaySnoc(labels[1..], last);
    }
  }

  /** Labels in front of a domain, each followed by a dot. */
  function Dotted(labels: seq<string>): string {
    if labels == [] then "" else labels[0] + "." + Dotted(labels[1..])
  }

  function Display(labels: seq<string>): string {
    if |labels| == 0 then ""
    else if |labels| == 1 then labels[0]
    else labels[0] + "." + Display(labels[1..])
  }

  function Join(labels: seq<string>, domain: string): string {
    if labels == [] then domain else Display(labels) + "." + domain
  }

  lemma {:induction false} JoinIsDotted(labels: seq<string>, domain: string)
    ensures Join(labels, domain) == Dotted(labels) + domain
  {
    if |labels| == 0 {
      assert Dotted(labels) + domain == domain;
    } else if |labels| == 1 {
      assert Dotted(labels[1..]) == "";
      assert Dotted(labels) == labels[0] + ".";
    } else {
      JoinIsDotted(labels[1..], domain);
      calc {
        Join(labels, domain);
        labels[0] + "." + Display(labels[1..]) + "." + domain;
        { assert labels[0] + "." + Display(labels[1..]) + "." + domain
              == labels[0] + "." + (Display(labels[1..]) + "." + domain); }
        labels[0] + "." + Join(labels[1..], domain);
        { assert labels[0] + "." + (Dotted(labels[1..]) + domain) == labels[0] + "." + Dotted(labels[1..]) + domain; }
        Dotted(labels) + domain;
      }
    }
  }

  /** No label contains the separator. */
  ghost predicate NoDots(labels: seq<string>) {
    forall i :: 0 <= i < |labels| ==> '.' !in labels[i]
  }

  lemma FirstDot(a: string, x: string, b: string, y: string)
    requires '.' !in a && '.' !in b && a + "." + x == b + "." + y
    ensures a == b && x == y
  {
    var s := a + "." + x;
    assert s[|a|] == '.' && s[|b|] == '.';
    assert forall i :: 0 <= i < |a| ==> s[i] == a[i];
    assert forall i :: 0 <= i < |b| ==> s[i] == b[i];
    assert a == s[..|a|] && b == s[..|b|] && x == s[|a| + 1..] && y == s[|b| + 1..];
  }

  lemma {:induction false} DottedIsInjective(a: seq<string>, b: seq<string>)
    requires NoDots(a) && NoDots(b) && Dotted(a) == Dotted(b)
    ensures a == b
  {
    if a != [] && b != [] {
      FirstDot(a[0], Dotted(a[1..]), b[0], Dotted(b[1..]));
      DottedIsInjective(a[1..], b[1..]);
      assert a == [a[0]] + a[1..] && b == [b[0]] + b[1..];
    }
  }

  /** For one domain, different lists of validated labels give different hosts. */
  lemma HostJoinIsInjective(a: seq<string>, b: seq<string>, domain: string)
    requires forall i :: 0 <= i < |a| ==> ValidLabel(a[i])
    requires forall i :: 0 <= i < |b| ==> ValidLabel(b[i])
    requires Join(a, domain) == Join(b, domain)
    ensures a == b
  {
    JoinIsDotted(a, domain);
    JoinIsDotted(b, domain);
    var s := Join(a, domain);
    assert Dotted(a) == s[..|s| - |domain|] == Dotted(b);
    assert NoDots(a) && NoDots(b);
    DottedIsInjective(a, b);
  }

  lemma {:induction false} DottedIsClean(labels: seq<string>)
    requires forall i :: 0 <= i < |labels| ==> ValidLabel(labels[i])
    ensures forall i :: 0 <= i < |Dotted(labels)| ==> HostChar(Dotted(labels)[i])
  {
    if labels != [] {
      DottedIsClean(labels[1..]);
      assert ValidLabel(labels[0]);
    }
  }

  /**
  The host of validated parts contains nothing that would end it early: no user
  info, query or path can be smuggled in through a label or an absolute host.
  */
  lemma ValidatedHostIsClean(parts: HostParts, domain: string)
    requires parts.Valid() && (parts.spec.SuffixDomain? ==> CleanHost(domain))
    ensures CleanHost(JoinedHost(parts.spec, domain))
  {
    if parts.spec.SuffixDomain? {
      var labels := Values(parts.spec.labels);
      JoinIsDotted(labels, domain);
      DottedIsClean(labels);
    }
  }
}
