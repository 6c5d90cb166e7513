/**
  * The in-Rhino MCP server (`rhinomcp_server.py`): the `create_sphere`
  * tool asks the user for consent, adds the sphere, optionally colours it
  * from a hex text, and reports the object's properties; the `scene`
  * resource lists the properties of every object in the document.
  *
  * rhinoscriptsyntax is not modelled: what it answers (the new object's
  * id, an object's attributes, the dialog's button) is given as
  * parameters. Coordinates are `real`; `fmt` is Python's `str` on them.
  */
module RhinoMcp {
  import opened Wrappers
  import Text

  // ---------------------------------------------------------------------
  // Hex colours
  // ---------------------------------------------------------------------

  /** A colour channel as Rhino reports it. */
  type Channel = x: int | 0 <= x < 256

  /** An RGB triple read from a colour text; `int(.., 16)` may give any value. */
  datatype Rgb = Rgb(r: int, g: int, b: int)

  predicate InRange(c: Rgb) {
    0 <= c.r < 256 && 0 <= c.g < 256 && 0 <= c.b < 256
  }

  predicate IsLowerHex(c: char) {
    '0' <= c <= '9' || 'a' <= c <= 'f'
  }

  predicate IsHexDigit(c: char) {
    '0' <= c <= '9' || 'a' <= c <= 'f' || 'A' <= c <= 'F'
  }

  /** The lower-case hex digit of `d`, as `format(d, "x")` writes it. */
  function HexDigit(d: nat): (c: char)
    requires d < 16
    ensures IsLowerHex(c) && Text.DigitValue(c) == d
  {
    if d < 10 then ('0' as int + d) as char else ('a' as int + d - 10) as char
  }

  /** `f"{n:02x}"` for a channel: two lower-case hex digits. */
  function HexPair(n: Channel): (s: string)
    ensures |s| == 2 && IsLowerHex(s[0]) && IsLowerHex(s[1])
    ensures Text.DigitValue(s[0]) * 16 + Text.DigitValue(s[1]) == n
  {
    [HexDigit(n / 16), HexDigit(n % 16)]
  }

  /** The colour text `get_object_properties` writes. */
  function FormatColour(r: Channel, g: Channel, b: Channel): (s: string)
    ensures |s| == 7 && s[0] == '#'
    ensures forall i :: 1 <= i < 7 ==> IsLowerHex(s[i])
  {
    "#" + HexPair(r) + HexPair(g) + HexPair(b)
  }

  /** Python's `s[i:j]` for `0 <= i <= j`: clipped to the text. */
  function Slice(s: string, i: nat, j: nat): (r: string)
    requires i <= j
    ensures |r| <= j - i
  {
    if i >= |s| then "" else if j >= |s| then s[i..] else s[i..j]
  }

  /** `p.strip()` for a piece of at most two characters. */
  function StripShort(p: string): (q: string)
    requires |p| <= 2
    ensures |q| <= |p|
  {
    var right := if |p| == 2 && Text.IsSpace(p[1]) then p[..1] else p;
    if |right| > 0 && Text.IsSpace(right[0]) then right[1..] else right
  }

  /** The short strip is Python's `str.strip`. */
  lemma StripShortIsStrip(p: string)
    requires |p| <= 2
    ensures StripShort(p) == Text.Strip(p)
  {
    if |p| == 2 {
      assert p == [p[0], p[1]];
      StripTwo(p[0], p[1]);
    } else if |p| == 1 {
      assert p == [p[0]];
      StripOne(p[0]);
    }
  }

  lemma StripOne(c: char)
    ensures Text.Strip([c]) == if Text.IsSpace(c) then [] else [c]
  {
    if Text.IsSpace(c) {
      assert [c][1..] == [];
      assert Text.TrimLeft([c]) == Text.TrimLeft([]) == [];
      assert Text.TrimRight([]) == [];
    } else {
      assert Text.TrimLeft([c]) == [c];
      assert Text.TrimRight([c]) == [c];
    }
  }

  lemma StripTwo(c: char, d: char)
    ensures Text.Strip([c, d]) ==
      if Text.IsSpace(c) then (if Text.IsSpace(d) then [] else [d])
      else if Text.IsSpace(d) then [c] else [c, d]
  {
    if Text.IsSpace(c) {
      assert [c, d][1..] == [d];
      assert Text.TrimLeft([c, d]) == Text.TrimLeft([d]);
      StripOne(d);
    } else {
      assert Text.TrimLeft([c, d]) == [c, d];
      if Text.IsSpace(d) {
        assert [c, d][..1] == [c];
        assert Text.TrimRight([c]) == [c];
      }
    }
  }

  /** `int(p, 16)` on a piece of at most two characters: after stripping
      whitespace, one or two hex digits, or a sign and one digit. A longer
      digit body, a `0x` prefix or an underscore needs more room. */
  function ShortHex(p: string): (r: Option<int>)
    requires |p| <= 2
    ensures r.Some? ==> -16 < r.value < 256
  {
    ShortDigits(StripShort(p))
  }

  /** The same on the stripped piece. */
  function ShortDigits(q: string): (r: Option<int>)
    requires |q| <= 2
    ensures r.Some? ==> -16 < r.value < 256
  {
    if |q| == 1 && Text.DigitValue(q[0]) < 16 then Some(Text.DigitValue(q[0]) as int)
    else if |q| == 2 && Text.DigitValue(q[0]) < 16 && Text.DigitValue(q[1]) < 16 then
      Some(Text.DigitValue(q[0]) * 16 + Text.DigitValue(q[1]))
    else if |q| == 2 && (q[0] == '-' || q[0] == '+') && Text.DigitValue(q[1]) < 16 then
      Some(if q[0] == '-' then -(Text.DigitValue(q[1]) as int) else Text.DigitValue(q[1]) as int)
    else None
  }

  /** `int(t[i:i+2], 16)`. */
  function HexField(t: string, i: nat): Option<int> {
    ShortHex(Slice(t, i, i + 2))
  }

  /** `create_sphere`'s colour parsing: drop every leading `#`, then read
      `int(color[i:i+2], 16)` at offsets 0, 2 and 4. `None` is the
      exception `int` raises on a piece that is not hexadecimal (an empty
      piece included). */
  function ParseColour(colour: string): (c: Option<Rgb>)
    ensures c.Some? ==> |Text.LStripChar(colour, '#')| >= 5
  {
    var t := Text.LStripChar(colour, '#');
    var r :- HexField(t, 0);
    var g :- HexField(t, 2);
    var b :- HexField(t, 4);
    Some(Rgb(r, g, b))
  }

  /** `ParseColour` in terms of the three fields it reads. */
  lemma ParseColourFields(colour: string, t: string, r: int, g: int, b: int)
    requires Text.LStripChar(colour, '#') == t
    requires HexField(t, 0) == Some(r) && HexField(t, 2) == Some(g) && HexField(t, 4) == Some(b)
    ensures ParseColour(colour) == Some(Rgb(r, g, b))
  {
  }

  /** `int(q, 16)` on a text of one character, whitespace already stripped. */
  lemma ParseIntOne(q: string)
    requires |q| == 1
    ensures Text.ParseDigits(q, 16) == if Text.DigitValue(q[0]) < 16 then Some(Text.DigitValue(q[0]) as int) else None
  {
    if q[0] == '-' || q[0] == '+' {
      assert !Text.WellFormedDigits(q[1..], 16);
    } else {
      assert Text.DropBasePrefix(q, 16) == q;
      assert Text.WellFormedDigits(q, 16) <==> Text.DigitValue(q[0]) < 16;
      if Text.DigitValue(q[0]) < 16 {
        assert q[..|q| - 1] == [];
        assert Text.DigitsValue(q, 16) == Text.DigitValue(q[0]);
      }
    }
  }

  /** `int(q, 16)` on a sign and one character, whitespace already stripped. */
  lemma ParseIntSigned(q: string)
    requires |q| == 2 && (q[0] == '-' || q[0] == '+')
    ensures Text.ParseDigits(q, 16) ==
      if Text.DigitValue(q[1]) < 16 then Some(if q[0] == '-' then -(Text.DigitValue(q[1]) as int) else Text.DigitValue(q[1]) as int) else None
  {
    var body := q[1..];
    assert body[0] == q[1];
    assert Text.DropBasePrefix(body, 16) == body;
    assert Text.WellFormedDigits(body, 16) <==> Text.DigitValue(q[1]) < 16;
    if Text.DigitValue(q[1]) < 16 {
      assert body[..|body| - 1] == [];
      assert Text.DigitsValue(body, 16) == Text.DigitValue(q[1]);
    }
  }

  /** `int(q, 16)` on two characters, the first no sign, whitespace already stripped. */
  lemma ParseIntTwo(q: string)
    requires |q| == 2 && q[0] != '-' && q[0] != '+'
    ensures Text.ParseDigits(q, 16) ==
      if Text.DigitValue(q[0]) < 16 && Text.DigitValue(q[1]) < 16 then Some(Text.DigitValue(q[0]) * 16 + Text.DigitValue(q[1])) else None
  {
    if q[0] == '0' && (q[1] == 'x' || q[1] == 'X') {
      assert Text.DropBasePrefix(q, 16) == [];
    } else {
      assert Text.DropBasePrefix(q, 16) == q;
      if Text.DigitValue(q[0]) < 16 && Text.DigitValue(q[1]) < 16 {
        var a := q[..1];
        assert a[..0] == [];
        assert Text.DigitsValue(a, 16) == Text.DigitValue(q[0]);
        assert Text.DigitsValue(q, 16) == Text.DigitsValue(a, 16) * 16 + Text.DigitValue(q[1]);
      }
    }
  }

  /** The short reading is Python's `int(p, 16)` on every piece of at most
      two characters. */
  lemma ShortHexIsInt(p: string)
    requires |p| <= 2
    ensures ShortHex(p) == Text.ParseInt(p, 16)
  {
    StripShortIsStrip(p);
    ShortDigitsAreInt(StripShort(p));
  }

  /** The short reading agrees with `int(q, 16)` once whitespace is gone. */
  lemma ShortDigitsAreInt(q: string)
    requires |q| <= 2
    ensures ShortDigits(q) == Text.ParseDigits(q, 16)
  {
    if |q| == 1 {
      ParseIntOne(q);
    } else if |q| == 2 && (q[0] == '-' || q[0] == '+') {
      ParseIntSigned(q);
    } else if |q| == 2 {
      ParseIntTwo(q);
    }
  }

  /** Two hex digits `a`, `b` at offset `i` read back by `int(t[i:i+2], 16)`. */
  lemma PairAt(t: string, i: nat, a: char, b: char)
    requires i + 2 <= |t| && t[i] == a && t[i + 1] == b && IsHexDigit(a) && IsHexDigit(b)
    ensures HexField(t, i) == Some(Text.DigitValue(a) * 16 + Text.DigitValue(b))
  {
    var p := Slice(t, i, i + 2);
    assert |p| == 2 && p[0] == a && p[1] == b;
    assert StripShort(p) == p;
  }

  /** Dropping the single leading `#` of a text whose next character differs. */
  lemma StripOneHash(s: string)
    requires |s| > 1 && s[0] == '#' && s[1] != '#'
    ensures Text.LStripChar(s, '#') == s[1..]
  {
  }

  /** Reading six hex digits `a` .. `f` after a `#`: the channels the three
      pairs spell, whatever follows. */
  lemma ParseSixDigits(s: string, a: char, b: char, c: char, d: char, e: char, f: char, rgb: Rgb)
    requires |s| >= 7 && s[0] == '#'
    requires s[1] == a && s[2] == b && s[3] == c && s[4] == d && s[5] == e && s[6] == f
    requires IsHexDigit(a) && IsHexDigit(b) && IsHexDigit(c) && IsHexDigit(d) && IsHexDigit(e) && IsHexDigit(f)
    requires rgb.r == Text.DigitValue(a) * 16 + Text.DigitValue(b)
    requires rgb.g == Text.DigitValue(c) * 16 + Text.DigitValue(d)
    requires rgb.b == Text.DigitValue(e) * 16 + Text.DigitValue(f)
    ensures ParseColour(s) == Some(rgb)
  {
    StripOneHash(s);
    var t := s[1..];
    PairAt(t, 0, a, b);
    PairAt(t, 2, c, d);
    PairAt(t, 4, e, f);
    ParseColourFields(s, t, rgb.r, rgb.g, rgb.b);
  }

  /** The seven characters a formatted colour starts with. */
  lemma FormatColourChars(r: Channel, g: Channel, b: Channel, tail: string)
    ensures var s := FormatColour(r, g, b) + tail;
      && |s| >= 7 && s[0] == '#'
      && s[1] == HexPair(r)[0] && s[2] == HexPair(r)[1]
      && s[3] == HexPair(g)[0] && s[4] == HexPair(g)[1]
      && s[5] == HexPair(b)[0] && s[6] == HexPair(b)[1]
  {
  }

  /** Parsing a colour text `get_object_properties` wrote gives the same
      channels back, and anything written after the sixth digit is ignored. */
  lemma ParseFormatColour(r: Channel, g: Channel, b: Channel, tail: string)
    ensures ParseColour(FormatColour(r, g, b) + tail) == Some(Rgb(r, g, b))
  {
    var x, y, z := HexPair(r), HexPair(g), HexPair(b);
    FormatColourChars(r, g, b, tail);
    ParseSixDigits(FormatColour(r, g, b) + tail, x[0], x[1], y[0], y[1], z[0], z[1], Rgb(r, g, b));
  }

  /** The lower-case form of a hex digit has the same value and is the digit
      `format` writes for that value. */
  lemma LowerHexDigit(c: char)
    requires IsHexDigit(c)
    ensures Text.DigitValue(c) < 16 && HexDigit(Text.DigitValue(c)) == Text.LowerChar(c)
  {
  }

  /** The channel two hex digits spell is written back as the same digits
      in lower case. */
  lemma HexPairLower(x: char, y: char)
    requires IsHexDigit(x) && IsHexDigit(y)
    ensures var v := Text.DigitValue(x) * 16 + Text.DigitValue(y);
      0 <= v < 256 && HexPair(v) == [Text.LowerChar(x), Text.LowerChar(y)]
  {
    LowerHexDigit(x);
    LowerHexDigit(y);
    var v := Text.DigitValue(x) * 16 + Text.DigitValue(y);
    assert v / 16 == Text.DigitValue(x) && v % 16 == Text.DigitValue(y);
  }

  /** The channels six hex digits spell are formatted back as the same
      digits in lower case. */
  lemma FormatLowered(h: string, rgb: Rgb)
    requires |h| == 6 && forall i :: 0 <= i < 6 ==> IsHexDigit(h[i])
    requires rgb.r == Text.DigitValue(h[0]) * 16 + Text.DigitValue(h[1])
    requires rgb.g == Text.DigitValue(h[2]) * 16 + Text.DigitValue(h[3])
    requires rgb.b == Text.DigitValue(h[4]) * 16 + Text.DigitValue(h[5])
    ensures InRange(rgb) && FormatColour(rgb.r, rgb.g, rgb.b) == "#" + Text.Lower(h)
  {
    HexPairLower(h[0], h[1]);
    HexPairLower(h[2], h[3]);
    HexPairLower(h[4], h[5]);
    var l := Text.Lower(h);
    assert l == [l[0], l[1]] + [l[2], l[3]] + [l[4], l[5]];
  }

  /** A requested `#RRGGBB` colour, in either case, is reported back in
      lower case. */
  lemma ColourReportedInLowerCase(h: string)
    requires |h| == 6 && forall i :: 0 <= i < 6 ==> IsHexDigit(h[i])
    ensures var c := ParseColour("#" + h);
      c.Some? && InRange(c.value) && FormatColour(c.value.r, c.value.g, c.value.b) == "#" + Text.Lower(h)
  {
    var rgb := Rgb(Text.DigitValue(h[0]) * 16 + Text.DigitValue(h[1]),
                   Text.DigitValue(h[2]) * 16 + Text.DigitValue(h[3]),
                   Text.DigitValue(h[4]) * 16 + Text.DigitValue(h[5]));
    ParseSixDigits("#" + h, h[0], h[1], h[2], h[3], h[4], h[5], rgb);
    FormatLowered(h, rgb);
  }

  // ---------------------------------------------------------------------
  // Object properties
  // ---------------------------------------------------------------------

  /** What rhinoscriptsyntax reports about an object: its type (as text),
      layer, name, and colour when it has one. */
  datatype Info = Info(typeName: string, layer: string, name: Option<string>, colour: Option<(Channel, Channel, Channel)>)

  /** `RhinoObjectProperties` without the position and bounding box. */
  datatype Props = Props(id: string, typeName: string, layer: string, name: Option<string>, colour: Option<string>)

  /** `get_object_properties`: `None` for `info` is any exception while
      reading the attributes, which leaves only the id and "unknown". */
  function ObjectProperties(id: string, info: Option<Info>): (p: Props)
    ensures p.id == id
    ensures info.None? ==> p == Props(id, "unknown", "unknown", None, None)
    ensures info.Some? ==> p.typeName == info.value.typeName && p.layer == info.value.layer && p.name == info.value.name
    ensures p.colour.Some? ==> |p.colour.value| == 7 && p.colour.value[0] == '#'
    ensures info.Some? ==> (p.colour.Some? <==> info.value.colour.Some?)
    ensures info.Some? && info.value.colour.Some? ==>
      var (r, g, b) := info.value.colour.value;
      ParseColour(p.colour.value) == Some(Rgb(r, g, b))
  {
    match info
    case None => Props(id, "unknown", "unknown", None, None)
    case Some(i) =>
      Props(id, i.typeName, i.layer, i.name,
        match i.colour
        case Some((r, g, b)) =>
          ParseFormatColour(r, g, b, "");
          assert FormatColour(r, g, b) + "" == FormatColour(r, g, b);
          Some(FormatColour(r, g, b))
        case None => None)
  }

  // ---------------------------------------------------------------------
  // The scene resource
  // ---------------------------------------------------------------------

  /** `SceneContext`, or the `{"error": ..}` data of a failed query. */
  datatype Scene =
    | SceneContext(objectCount: nat, objects: seq<Props>, activeView: string, layers: seq<string>)
    | SceneError(error: string)

  /** `get_all_objects`: `ids` is `rs.AllObjects()`, `None` when it returns
      nothing or raises; properties never raise. */
  function AllObjects(ids: Option<seq<string>>, lookup: string -> Option<Info>): (objs: seq<Props>)
    ensures ids.None? ==> objs == []
    ensures ids.Some? ==> |objs| == |ids.value|
    ensures ids.Some? ==> forall i :: 0 <= i < |objs| ==> objs[i] == ObjectProperties(ids.value[i], lookup(ids.value[i]))
  {
    match ids
    case None => []
    case Some(s) => seq(|s|, i requires 0 <= i < |s| => ObjectProperties(s[i], lookup(s[i])))
  }

  /** The `scene` resource handler. */
  function SceneInfo(ids: Option<seq<string>>, lookup: string -> Option<Info>,
                     view: Result<string, string>, layers: Result<seq<string>, string>): (s: Scene)
    ensures s.SceneContext? <==> view.Ok? && layers.Ok?
    ensures s.SceneContext? ==> s.objectCount == |s.objects| && s.objects == AllObjects(ids, lookup)
  {
    var objs := AllObjects(ids, lookup);
    match (view, layers)
    case (Ok(v), Ok(ls)) => SceneContext(|objs|, objs, v, ls)
    case (Err(e), _) => SceneError(e)
    case (_, Err(e)) => SceneError(e)
  }

  /** There is one entry per document object, in document order, each with
      that object's id, and the count is the number of entries. */
  lemma SceneListsEveryObject(ids: seq<string>, lookup: string -> Option<Info>, view: string, layers: seq<string>)
    ensures var s := SceneInfo(Some(ids), lookup, Ok(view), Ok(layers));
      && s.SceneContext? && s.objectCount == |ids|
      && forall i :: 0 <= i < |ids| ==> s.objects[i].id == ids[i]
  {
  }

  // ---------------------------------------------------------------------
  // The create_sphere tool
  // ---------------------------------------------------------------------

  /** `CreateSphereParams`. */
  datatype SphereParams = SphereParams(centerX: real, centerY: real, centerZ: real, radius: real, colour: Option<string>)

  predicate HasColour(p: SphereParams) {
    p.colour.Some? && p.colour.value != ""
  }

  /** The colour `create_sphere` applies: parsed, and accepted by Rhino only
      with every channel in range; otherwise only a warning is logged. */
  function AppliedColour(p: SphereParams): (c: Option<(Channel, Channel, Channel)>)
    ensures c.Some? ==> HasColour(p)
  {
    if !HasColour(p) then None
    else
      match ParseColour(p.colour.value)
      case Some(rgb) =>
        if InRange(rgb) then Some((rgb.r as Channel, rgb.g as Channel, rgb.b as Channel)) else None
      case None => None
  }

  /** The object id and properties `create_sphere` returns. */
  datatype Created = Created(objectId: string, properties: Props)

  /** `create_sphere`: `added` is what `rs.AddSphere` gives (the new id and
      the object's attributes) or the text of its exception, `readable`
      whether the attributes can be read back afterwards. */
  function CreateSphere(p: SphereParams, added: Result<(string, Info), string>, readable: bool): (r: Result<Created, string>)
    ensures r.Ok? <==> added.Ok?
    ensures r.Ok? ==> r.value.objectId == added.value.0 && r.value.properties.id == added.value.0
  {
    var (id, info) :- added;
    var coloured := match AppliedColour(p) case Some(c) => info.(colour := Some(c)) case None => info;
    Ok(Created(id, ObjectProperties(id, if readable then Some(coloured) else None)))
  }

  /** A colour that does not parse changes nothing but the log: the sphere
      is created and reported as if no colour had been asked for. */
  lemma ColourFailureOnlyWarns(p: SphereParams, added: Result<(string, Info), string>, readable: bool)
    requires HasColour(p) && ParseColour(p.colour.value).None?
    ensures CreateSphere(p, added, readable) == CreateSphere(p.(colour := None), added, readable)
  {
  }

  /** A sphere asked for in colour `#RRGGBB` reports that colour, in lower
      case, when its attributes can be read. */
  lemma SphereReportsRequestedColour(p: SphereParams, id: string, info: Info, h: string)
    requires |h| == 6 && forall i :: 0 <= i < 6 ==> IsHexDigit(h[i])
    requires p.colour == Some("#" + h)
    ensures var r := CreateSphere(p, Ok((id, info)), true);
      r.Ok? && r.value.properties.colour == Some("#" + Text.Lower(h))
  {
    ColourReportedInLowerCase(h);
  }

  /** The user's answer to the consent dialog, or its exception. */
  datatype Dialog = Yes | No | DialogError(error: string)

  /** `UserConsent`. */
  datatype Consent = Consent(approved: bool, reason: Option<string>)

  /** `request_user_consent`: only a Yes approves; an error counts as no. */
  function RequestUserConsent(d: Dialog): (c: Consent)
    ensures c.approved <==> d == Yes
    ensures c.approved <==> c.reason.None?
  {
    match d
    case Yes => Consent(true, None)
    case No => Consent(false, Some("User declined"))
    case DialogError(e) => Consent(false, Some("Error showing consent dialog: " + e))
  }

  /** The text shown in the consent dialog. */
  function ConsentMessage(p: SphereParams, fmt: real -> string): string {
    "An AI agent wants to create a sphere at (" + fmt(p.centerX) + ", " + fmt(p.centerY) + ", " + fmt(p.centerZ)
    + ") with radius " + fmt(p.radius) + "."
    + (if HasColour(p) then " Color: " + p.colour.value else "")
  }

  datatype Status = Success | Denied | Failed

  /** `ToolResult`. */
  datatype ToolResult = ToolResult(status: Status, message: string, data: Option<Created>)

  /** What the tool did: the consent dialog's title and message, if one
      was shown, whether `AddSphere` was called (whatever it returned), and the result. */
  datatype Outcome = Outcome(asked: Option<(string, string)>, calledAddSphere: bool, result: ToolResult)

  /** `create_sphere_tool`: `params` is the validated parameters or the
      validation error; `dialog` is the user's answer. */
  function CreateSphereTool(params: Result<SphereParams, string>, fmt: real -> string, dialog: Dialog,
                            added: Result<(string, Info), string>, readable: bool): (t: Outcome)
    ensures t.calledAddSphere <==> params.Ok? && dialog == Yes
    ensures t.result.status == Denied <==> params.Ok? && dialog != Yes
    ensures t.result.status == Success <==> params.Ok? && dialog == Yes && added.Ok?
    ensures t.result.data.Some? <==> t.result.status == Success
  {
    match params
    case Err(e) => Outcome(None, false, ToolResult(Failed, "Failed to create sphere: " + e, None))
    case Ok(p) =>
      var message := ("Create Sphere", ConsentMessage(p, fmt));
      if !RequestUserConsent(dialog).approved then
        Outcome(Some(message), false, ToolResult(Denied, "User denied permission to create sphere", None))
      else
        match CreateSphere(p, added, readable)
        case Err(e) => Outcome(Some(message), true, ToolResult(Failed, "Failed to create sphere: " + e, None))
        case Ok(c) => Outcome(Some(message), true, ToolResult(Success, "Sphere created successfully", Some(c)))
  }

  /** Consent gates creation: valid parameters always lead to the dialog,
      and without a Yes nothing is added, whatever Rhino would answer. */
  lemma NoSphereWithoutConsent(p: SphereParams, fmt: real -> string, dialog: Dialog,
                               added: Result<(string, Info), string>, readable: bool)
    requires dialog != Yes
    ensures var t := CreateSphereTool(Ok(p), fmt, dialog, added, readable);
      && t.asked == Some(("Create Sphere", ConsentMessage(p, fmt)))
      && !t.calledAddSphere
      && t.result == ToolResult(Denied, "User denied permission to create sphere", None)
  {
  }
}
