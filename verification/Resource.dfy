/** pkg/catalog/resource.go: access-control resource paths, with values percent-encoded as in
 * sections 2.1 and 2.3 of RFC 3986. */
module Resource {
  import opened Base

  type Byte = b: int | 0 <= b < 256

  datatype Error = Required | Reserved | NotUtf8

  const UPPER_HEX: string := "0123456789ABCDEF"

  predicate Continuation(b: Byte) { 0x80 <= b <= 0xBF }

  // utf8.ValidString
  predicate ValidUtf8(v: seq<Byte>) {
    if v == [] then true
    else if v[0] < 0x80 then ValidUtf8(v[1..])
    else if 0xC2 <= v[0] <= 0xDF then |v| >= 2 && Continuation(v[1]) && ValidUtf8(v[2..])
    else if 0xE0 <= v[0] <= 0xEF then
      && |v| >= 3 && Continuation(v[1]) && Continuation(v[2])
      && (v[0] == 0xE0 ==> v[1] >= 0xA0) && (v[0] == 0xED ==> v[1] <= 0x9F)
      && ValidUtf8(v[3..])
    else if 0xF0 <= v[0] <= 0xF4 then
      && |v| >= 4 && Continuation(v[1]) && Continuation(v[2]) && Continuation(v[3])
      && (v[0] == 0xF0 ==> v[1] >= 0x90) && (v[0] == 0xF4 ==> v[1] <= 0x8F)
      && ValidUtf8(v[4..])
    else false
  }

  // The unreserved characters of section 2.3.
  predicate Unreserved(b: Byte) {
    0x41 <= b <= 0x5A || 0x61 <= b <= 0x7A || 0x30 <= b <= 0x39 || b == 0x2D || b == 0x2E || b == 0x5F || b == 0x7E
  }

  function EncodeByte(b: Byte): (r: string)
    ensures |r| == if Unreserved(b) then 1 else 3
    ensures '/' !in r && '!' !in r
  {
    if Unreserved(b) then [b as char] else ['%', UPPER_HEX[b / 16], UPPER_HEX[b % 16]]
  }

  function EncodeBytes(v: seq<Byte>): string {
    if v == [] then "" else EncodeBytes(v[..|v| - 1]) + EncodeByte(v[|v| - 1])
  }

  function EncodeSegment(v: seq<Byte>, optional: bool): Result<string, Error> {
    if v == [] then (if optional then Ok("!") else Err(Required))
    else if v == [0x21] then Err(Reserved)
    else if !ValidUtf8(v) then Err(NotUtf8)
    else Ok(EncodeBytes(v))
  }

  // encodeResourceSegment, byte by byte.
  method EncodeResourceSegment(v: seq<Byte>, optional: bool) returns (r: Result<string, Error>)
    ensures r == EncodeSegment(v, optional)
  {
    if v == [] {
      return if optional then Ok("!") else Err(Required);
    }
    if v == [0x21] {
      return Err(Reserved);
    }
    if !ValidUtf8(v) {
      return Err(NotUtf8);
    }
    var out := "";
    for i := 0 to |v|
      invariant out == EncodeBytes(v[..i])
    {
      assert v[..i + 1][..i] == v[..i];
      if Unreserved(v[i]) {
        out := out + [v[i] as char];
      } else {
        out := out + ['%', UPPER_HEX[v[i] / 16], UPPER_HEX[v[i] % 16]];
      }
    }
    assert v[..|v|] == v;
    return Ok(out);
  }

  // ---- The inverse ----

  function HexValue(c: char): Option<nat> {
    if '0' <= c <= '9' then Some(c as int - '0' as int)
    else if 'A' <= c <= 'F' then Some(c as int - 'A' as int + 10)
    else None
  }

  // Percent-decoding by section 2.1; None where the text is no encoding.
  function DecodeBytes(s: string): Option<seq<Byte>> {
    if s == "" then Some([])
    else if s[0] == '%' then
      if |s| < 3 then None else
      match (HexValue(s[1]), HexValue(s[2]), DecodeBytes(s[3..]))
      case (Some(hi), Some(lo), Some(rest)) => (if 16 * hi + lo < 256 then Some([16 * hi + lo] + rest) else None)
      case _ => None
    else if s[0] as int < 256 then
      match DecodeBytes(s[1..]) case Some(rest) => Some([s[0] as int] + rest) case None => None
    else None
  }

  lemma HexRoundTrip(b: Byte)
    ensures HexValue(UPPER_HEX[b / 16]) == Some(b / 16) && HexValue(UPPER_HEX[b % 16]) == Some(b % 16)
  {
    HexDigit(b / 16);
    HexDigit(b % 16);
  }

  lemma HexDigit(d: nat)
    requires d < 16
    ensures HexValue(UPPER_HEX[d]) == Some(d)
  {
  }

  // What one byte encodes to is decoded to that byte, and decoding goes on behind it.
  lemma DecodeStep(b: Byte, rest: string)
    requires DecodeBytes(rest).Some?
    ensures DecodeBytes(EncodeByte(b) + rest) == Some([b] + DecodeBytes(rest).value)
  {
    var s := EncodeByte(b) + rest;
    if Unreserved(b) {
      assert s[0] == b as char && s[1..] == rest && s[0] != '%';
      hide HexValue;
    } else {
      HexRoundTrip(b);
      EscapeIsDecoded(UPPER_HEX[b / 16], UPPER_HEX[b % 16], b / 16, b % 16, rest);
      assert s == ['%', UPPER_HEX[b / 16], UPPER_HEX[b % 16]] + rest;
      hide DecodeBytes, HexValue;
    }
  }

  lemma EscapeIsDecoded(high: char, low: char, hi: nat, lo: nat, rest: string)
    requires HexValue(high) == Some(hi) && HexValue(low) == Some(lo) && 16 * hi + lo < 256 && DecodeBytes(rest).Some?
    ensures DecodeBytes(['%', high, low] + rest) == Some([16 * hi + lo] + DecodeBytes(rest).value)
  {
    var s := ['%', high, low] + rest;
    hide HexValue;
    assert s[0] == '%' && s[1] == high && s[2] == low && s[3..] == rest;
  }

  lemma {:induction false} DecodeEncoded(v: seq<Byte>, rest: string)
    requires DecodeBytes(rest).Some?
    ensures DecodeBytes(EncodeBytes(v) + rest) == Some(v + DecodeBytes(rest).value)
  {
    hide DecodeBytes, EncodeByte;
    if v == [] {
      assert EncodeBytes(v) + rest == rest;
      assert v + DecodeBytes(rest).value == DecodeBytes(rest).value;
    } else {
      var last := v[|v| - 1];
      DecodeStep(last, rest);
      DecodeEncoded(v[..|v| - 1], EncodeByte(last) + rest);
      assert EncodeBytes(v) + rest == EncodeBytes(v[..|v| - 1]) + (EncodeByte(last) + rest);
      assert v[..|v| - 1] + ([last] + DecodeBytes(rest).value) == v + DecodeBytes(rest).value;
    }
  }

  // Every accepted value comes back from its segment, and the segment can be no separator and no sentinel.
  lemma SegmentRoundTrip(v: seq<Byte>, optional: bool)
    requires v != [] && EncodeSegment(v, optional).Ok?
    ensures var s := EncodeSegment(v, optional).value;
            DecodeBytes(s) == Some(v) && s != "!" && s != "" && '/' !in s
  {
    DecodeEncoded(v, "");
    assert EncodeBytes(v) + "" == EncodeBytes(v);
    assert v + [] == v;
    EncodedIsPlain(v);
  }

  lemma {:induction false} EncodedIsPlain(v: seq<Byte>)
    ensures '/' !in EncodeBytes(v) && '!' !in EncodeBytes(v)
    ensures v != [] ==> EncodeBytes(v) != ""
  {
    if v != [] {
      EncodedIsPlain(v[..|v| - 1]);
    }
  }

  lemma SegmentInjective(v: seq<Byte>, w: seq<Byte>, optional: bool)
    requires EncodeSegment(v, optional).Ok? && EncodeSegment(v, optional) == EncodeSegment(w, optional)
    ensures v == w && '/' !in EncodeSegment(v, optional).value
  {
    if v != [] {
      SegmentRoundTrip(v, optional);
    }
    if w != [] {
      SegmentRoundTrip(w, optional);
    }
  }

  // ---- Whole paths ----

  datatype CatalogContext = CatalogContext(
    workspace: seq<Byte>, thread: seq<Byte>, view: seq<Byte>, host: seq<Byte>, surface: seq<Byte>, inst: seq<Byte>)

  // The text pieces of "workspaces/%s/threads/%s/.../providers/%s/tools/%s", between slashes.
  function Pieces(segments: seq<string>): seq<string>
    requires |segments| == 8
  {
    ["workspaces", segments[0], "threads", segments[1], "views", segments[2], "hosts", segments[3],
     "surfaces", segments[4], "instances", segments[5], "providers", segments[6], "tools", segments[7]]
  }

  function Join(pieces: seq<string>): string {
    if pieces == [] then "" else if |pieces| == 1 then pieces[0] else pieces[0] + "/" + Join(pieces[1..])
  }

  // The six context values, the provider and the tool; only the middle five context values are optional.
  function Values(c: CatalogContext, provider: seq<Byte>, tool: seq<Byte>): seq<seq<Byte>> {
    [c.workspace, c.thread, c.view, c.host, c.surface, c.inst, provider, tool]
  }

  predicate OptionalField(i: nat) {
    1 <= i <= 5
  }

  // The encoded segments of a list of values, or the first error.
  function Segments(values: seq<seq<Byte>>, from: nat): (r: Result<seq<string>, Error>)
    ensures r.Ok? ==> |r.value| == |values|
    ensures r.Ok? ==> forall i :: 0 <= i < |values| ==> EncodeSegment(values[i], OptionalField(from + i)) == Ok(r.value[i])
  {
    if values == [] then Ok([]) else
    var head :- EncodeSegment(values[0], OptionalField(from));
    var tail :- Segments(values[1..], from + 1);
    Ok([head] + tail)
  }

  function EntryResourcePath(c: CatalogContext, provider: seq<Byte>, tool: seq<Byte>): Result<string, Error> {
    var segments :- Segments(Values(c, provider, tool), 0);
    Ok(Join(Pieces(segments)))
  }

  // Text up to its first slash, and behind it.
  lemma SplitOnce(a: string, x: string, b: string, y: string)
    requires '/' !in a && '/' !in b && a + "/" + x == b + "/" + y
    ensures a == b && x == y
  {
    var s := a + "/" + x;
    assert s[|a|] == '/' && s[|b|] == '/';
    assert forall i :: 0 <= i < |a| ==> s[i] == a[i] && s[i] != '/';
    assert forall i :: 0 <= i < |b| ==> s[i] == b[i] && s[i] != '/';
    assert a == s[..|a|] && b == s[..|b|] && x == s[|a| + 1..] && y == s[|b| + 1..];
  }

  lemma {:induction false} JoinInjective(p: seq<string>, q: seq<string>)
    requires |p| == |q| && Join(p) == Join(q)
    requires forall i :: 0 <= i < |p| ==> '/' !in p[i] && '/' !in q[i]
    ensures p == q
  {
    if |p| > 1 {
      SplitOnce(p[0], Join(p[1..]), q[0], Join(q[1..]));
      JoinInjective(p[1..], q[1..]);
      assert p == [p[0]] + p[1..] && q == [q[0]] + q[1..];
    }
  }

  lemma SegmentsPlain(values: seq<seq<Byte>>)
    requires |values| == 8 && Segments(values, 0).Ok?
    ensures var p := Pieces(Segments(values, 0).value); forall i :: 0 <= i < |p| ==> '/' !in p[i]
  {
    var segments := Segments(values, 0).value;
    forall i | 0 <= i < 8
      ensures '/' !in segments[i]
    {
      SegmentInjective(values[i], values[i], OptionalField(i));
    }
    PiecesPlain(segments);
  }

  lemma PiecesPlain(segments: seq<string>)
    requires |segments| == 8 && forall i :: 0 <= i < 8 ==> '/' !in segments[i]
    ensures forall i :: 0 <= i < 16 ==> '/' !in Pieces(segments)[i]
  {
    var p := Pieces(segments);
    forall i | 0 <= i < 16
      ensures '/' !in p[i]
    {
      if i % 2 == 1 {
        assert p[i] == segments[i / 2];
      }
    }
  }

  // One path, one entry: equal resource paths come from equal contexts, providers and tool names, and an
  // absent optional field is told apart from every value.
  lemma EntryPathInjective(c: CatalogContext, provider: seq<Byte>, tool: seq<Byte>,
                           d: CatalogContext, otherProvider: seq<Byte>, otherTool: seq<Byte>)
    requires EntryResourcePath(c, provider, tool).Ok?
    requires EntryResourcePath(c, provider, tool) == EntryResourcePath(d, otherProvider, otherTool)
    ensures c == d && provider == otherProvider && tool == otherTool
  {
    var v, w := Values(c, provider, tool), Values(d, otherProvider, otherTool);
    var s, t := Segments(v, 0).value, Segments(w, 0).value;
    SegmentsPlain(v);
    SegmentsPlain(w);
    JoinInjective(Pieces(s), Pieces(t));
    PiecesInjective(s, t);
    forall i | 0 <= i < 8
      ensures v[i] == w[i]
    {
      SegmentInjective(v[i], w[i], OptionalField(i));
    }
    hide EncodeSegment, Segments, Join, Pieces;
    assert v[0] == w[0] && v[1] == w[1] && v[2] == w[2] && v[3] == w[3] && v[4] == w[4] && v[5] == w[5] && v[6] == w[6] && v[7] == w[7];
  }

  lemma PiecesInjective(s: seq<string>, t: seq<string>)
    requires |s| == |t| == 8 && Pieces(s) == Pieces(t)
    ensures s == t
  {
    forall i | 0 <= i < 8
      ensures s[i] == t[i]
    {
      assert Pieces(s)[2 * i + 1] == s[i] && Pieces(t)[2 * i + 1] == t[i];
    }
  }

  // ---- What is accepted, and in which form ----

  // Letters, digits and four more characters stand for themselves.
  predicate Plain(c: char) {
    'a' <= c <= 'z' || 'A' <= c <= 'Z' || '0' <= c <= '9' || c in "-._~"
  }

  // Every other byte is written as a percent sign and its two hexadecimal digits, in capitals.
  lemma BytesAreEscaped(b: Byte)
    ensures var text := EncodeByte(b);
            if b < 128 && Plain(b as char) then text == [b as char]
            else |text| == 3 && text[0] == '%' && HexValue(text[1]) == Some(b / 16) && HexValue(text[2]) == Some(b % 16)
  {
    HexRoundTrip(b);
    hide HexValue, UPPER_HEX;
  }

  // A value is refused exactly if it is missing where it must not be, is the sentinel itself, or is no UTF-8; a missing
  // optional value is the sentinel.
  lemma SegmentIsDecided(v: seq<Byte>, optional: bool)
    ensures EncodeSegment(v, optional).Ok? <==> if v == [] then optional else v != ['!' as int] && exists us :: Spells(us, v)
    ensures v == [] && optional ==> EncodeSegment(v, optional) == Ok("!")
    ensures EncodeSegment(v, optional) == Err(Required) <==> v == [] && !optional
    ensures EncodeSegment(v, optional) == Err(Reserved) <==> v == ['!' as int]
  {
    ValidIsSpelled(v);
    hide ValidUtf8, Spells, EncodeBytes;
  }

  // A whole path is accepted exactly if all its values are, and shows them under their labels.
  lemma PathIs(c: CatalogContext, provider: seq<Byte>, tool: seq<Byte>)
    ensures var values, path := Values(c, provider, tool), EntryResourcePath(c, provider, tool);
            && (path.Ok? <==> forall i :: 0 <= i < 8 ==> EncodeSegment(values[i], 1 <= i <= 5).Ok?)
            && (path.Ok? ==>
                  var part := (v: seq<Byte>, optional: bool) => if EncodeSegment(v, optional).Ok? then EncodeSegment(v, optional).value else "";
                  path.value == "workspaces/" + part(c.workspace, false) + "/threads/" + part(c.thread, true) + "/views/" + part(c.view, true)
                                + "/hosts/" + part(c.host, true) + "/surfaces/" + part(c.surface, true) + "/instances/" + part(c.inst, true)
                                + "/providers/" + part(provider, false) + "/tools/" + part(tool, false))
  {
    hide EncodeSegment;
    var values := Values(c, provider, tool);
    SegmentsDecided(values, 0);
    if Segments(values, 0).Ok? {
      JoinSixteen(Segments(values, 0).value);
      hide Join;
    }
  }

  lemma {:induction false} SegmentsDecided(values: seq<seq<Byte>>, from: nat)
    ensures Segments(values, from).Ok? <==> forall i :: 0 <= i < |values| ==> EncodeSegment(values[i], OptionalField(from + i)).Ok?
  {
    hide EncodeSegment, OptionalField;
    if values != [] {
      SegmentsDecided(values[1..], from + 1);
      assert forall i :: 1 <= i < |values| ==> values[i] == values[1..][i - 1] && from + i == from + 1 + (i - 1);
      if Segments(values[1..], from + 1).Ok? && EncodeSegment(values[0], OptionalField(from)).Ok? {
        assert Segments(values, from).Ok?;
      }
    }
  }

  lemma JoinCons(first: string, rest: seq<string>)
    ensures Join([first] + rest) == if rest == [] then first else first + "/" + Join(rest)
  {
    assert ([first] + rest)[1..] == rest;
  }

  lemma JoinPair(name: string, value: string)
    ensures Join([name, value]) == name + "/" + value
  {
    JoinCons(value, []);
    JoinCons(name, [value]);
    hide Join;
    assert [value] + [] == [value] && [name] + [value] == [name, value];
  }

  lemma {:induction false} JoinMore(p: seq<string>, name: string, value: string)
    requires p != []
    ensures Join(p + [name, value]) == Join(p) + ("/" + name + "/") + value
  {
    hide *;
    var more := [name, value];
    assert [p[0]] + p[1..] == p && [p[0]] + (p[1..] + more) == p + more;
    JoinCons(p[0], p[1..]);
    JoinCons(p[0], p[1..] + more);
    if |p| == 1 {
      JoinPair(name, value);
      assert p[1..] + more == more;
      assert p[0] + "/" + (name + "/" + value) == p[0] + ("/" + name + "/") + value;
    } else {
      JoinMore(p[1..], name, value);
      var rest := Join(p[1..]);
      assert p[0] + "/" + (rest + ("/" + name + "/") + value) == p[0] + "/" + rest + ("/" + name + "/") + value;
    }
  }

  lemma JoinSixteen(s: seq<string>)
    requires |s| == 8
    ensures Join(Pieces(s)) == "workspaces/" + s[0] + "/threads/" + s[1] + "/views/" + s[2] + "/hosts/" + s[3]
                               + "/surfaces/" + s[4] + "/instances/" + s[5] + "/providers/" + s[6] + "/tools/" + s[7]
  {
    JoinWorkspace(s[0]);
    hide Join;
    var a := ["workspaces", s[0]];
    var b := a + ["threads", s[1]];
    var c := b + ["views", s[2]];
    var d := c + ["hosts", s[3]];
    var e := d + ["surfaces", s[4]];
    var f := e + ["instances", s[5]];
    var g := f + ["providers", s[6]];
    JoinMore(a, "threads", s[1]);
    JoinMore(b, "views", s[2]);
    JoinMore(c, "hosts", s[3]);
    JoinMore(d, "surfaces", s[4]);
    JoinMore(e, "instances", s[5]);
    JoinMore(f, "providers", s[6]);
    JoinMore(g, "tools", s[7]);
    Labels();
    assert g + ["tools", s[7]] == Pieces(s);
  }

  lemma JoinWorkspace(value: string)
    ensures Join(["workspaces", value]) == "workspaces/" + value
  {
    JoinPair("workspaces", value);
    hide Join;
    assert "workspaces" + "/" == "workspaces/";
  }

  lemma Labels()
    ensures "/" + "threads" + "/" == "/threads/" && "/" + "views" + "/" == "/views/" && "/" + "hosts" + "/" == "/hosts/"
    ensures "/" + "surfaces" + "/" == "/surfaces/" && "/" + "instances" + "/" == "/instances/"
    ensures "/" + "providers" + "/" == "/providers/" && "/" + "tools" + "/" == "/tools/"
  {
  }

  // ---- UTF-8 ----

  // A code point that can be encoded: in range, and no surrogate.
  predicate Scalar(u: int) {
    0 <= u <= 0x10FFFF && !(0xD800 <= u <= 0xDFFF)
  }

  // The encoding of section 3 of RFC 3629.
  function Utf8(u: int): seq<Byte>
    requires Scalar(u)
  {
    if u < 0x80 then [u]
    else if u < 0x800 then [0xC0 + u / 64, 0x80 + u % 64]
    else if u < 0x10000 then [0xE0 + u / 4096, 0x80 + u / 64 % 64, 0x80 + u % 64]
    else [0xF0 + u / 262144, 0x80 + u / 4096 % 64, 0x80 + u / 64 % 64, 0x80 + u % 64]
  }

  ghost predicate Spells(us: seq<int>, v: seq<Byte>)
    decreases us
  {
    if us == [] then v == []
    else Scalar(us[0]) && Utf8(us[0]) <= v && Spells(us[1..], v[|Utf8(us[0])|..])
  }

  lemma {:induction false} SpelledIsValid(us: seq<int>, v: seq<Byte>)
    requires Spells(us, v)
    ensures ValidUtf8(v)
    decreases us
  {
    if us != [] {
      SpelledIsValid(us[1..], v[|Utf8(us[0])|..]);
      OneIsValid(us[0], v);
    }
  }

  // What ValidUtf8 asks of the bytes of one code point.
  predicate Sequence(b: seq<Byte>) {
    match |b|
    case 1 => b[0] < 0x80
    case 2 => 0xC2 <= b[0] <= 0xDF && Continuation(b[1])
    case 3 =>
      && 0xE0 <= b[0] <= 0xEF && Continuation(b[1]) && Continuation(b[2])
      && (b[0] == 0xE0 ==> b[1] >= 0xA0) && (b[0] == 0xED ==> b[1] <= 0x9F)
    case 4 =>
      && 0xF0 <= b[0] <= 0xF4 && Continuation(b[1]) && Continuation(b[2]) && Continuation(b[3])
      && (b[0] == 0xF0 ==> b[1] >= 0x90) && (b[0] == 0xF4 ==> b[1] <= 0x8F)
    case _ => false
  }

  lemma ScalarIsSequence(u: int)
    requires Scalar(u)
    ensures Sequence(Utf8(u))
  {
    if u < 0x800 {
    } else if u < 0x10000 {
      assert u / 64 == u / 4096 * 64 + u / 64 % 64;
    } else {
      assert u / 4096 == u / 262144 * 64 + u / 4096 % 64;
    }
  }

  lemma {:induction false} OneIsValid(u: int, v: seq<Byte>)
    requires Scalar(u) && Utf8(u) <= v && ValidUtf8(v[|Utf8(u)|..])
    ensures ValidUtf8(v)
  {
    ScalarIsSequence(u);
    hide Utf8;
    var first := Utf8(u);
    assert forall i :: 0 <= i < |first| ==> v[i] == first[i];
  }

  // The first code point of a valid text.
  lemma FirstIsSpelled(v: seq<Byte>) returns (u: int)
    requires v != [] && ValidUtf8(v)
    ensures Scalar(u) && Utf8(u) <= v && ValidUtf8(v[|Utf8(u)|..])
  {
    var a: int := v[0];
    if a < 0x80 {
      u := a;
      assert Utf8(u) == v[..1];
    } else if a <= 0xDF {
      var b: int := v[1];
      u := (a - 0xC0) * 64 + (b - 0x80);
      assert Utf8(u) == v[..2];
    } else if a <= 0xEF {
      var b: int, c: int := v[1], v[2];
      u := (a - 0xE0) * 4096 + (b - 0x80) * 64 + (c - 0x80);
      ThreeBytes(a - 0xE0, b - 0x80, c - 0x80);
      assert Utf8(u) == v[..3];
    } else {
      var b: int, c: int, d: int := v[1], v[2], v[3];
      u := (a - 0xF0) * 262144 + (b - 0x80) * 4096 + (c - 0x80) * 64 + (d - 0x80);
      FourBytes(a - 0xF0, b - 0x80, c - 0x80, d - 0x80);
      assert Utf8(u) == v[..4];
    }
  }

  lemma ThreeBytes(a: int, b: int, c: int)
    requires 0 <= a < 16 && 0 <= b < 64 && 0 <= c < 64
    ensures var u := a * 4096 + b * 64 + c; u / 4096 == a && u / 64 % 64 == b && u % 64 == c
  {
    var u := a * 4096 + b * 64 + c;
    assert u / 64 == a * 64 + b;
  }

  lemma FourBytes(a: int, b: int, c: int, d: int)
    requires 0 <= a < 8 && 0 <= b < 64 && 0 <= c < 64 && 0 <= d < 64
    ensures var u := a * 262144 + b * 4096 + c * 64 + d; u / 262144 == a && u / 4096 % 64 == b && u / 64 % 64 == c && u % 64 == d
  {
    var u := a * 262144 + b * 4096 + c * 64 + d;
    assert u / 4096 == a * 64 + b;
    assert u / 64 == a * 4096 + b * 64 + c;
  }

  lemma {:induction false} ValidIsSpelledBy(v: seq<Byte>) returns (us: seq<int>)
    requires ValidUtf8(v)
    ensures Spells(us, v)
    decreases |v|
  {
    us := [];
    if v != [] {
      var u := FirstIsSpelled(v);
      var rest := ValidIsSpelledBy(v[|Utf8(u)|..]);
      us := [u] + rest;
      assert us[1..] == rest;
    }
  }

  // What is accepted as UTF-8 is exactly what spells some code points.
  lemma ValidIsSpelled(v: seq<Byte>)
    ensures ValidUtf8(v) <==> exists us :: Spells(us, v)
  {
    if ValidUtf8(v) {
      var us := ValidIsSpelledBy(v);
      assert exists xs :: Spells(xs, v);
    } else {
      forall us | Spells(us, v)
        ensures false
      {
        SpelledIsValid(us, v);
      }
      assert !exists xs :: Spells(xs, v);
    }
  }
}
