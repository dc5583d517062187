// Knowledge property values (internal/kernel/property_value.go): what a JSON value stands for, and the
// one form it is written in.

module PropertyValues {
  import opened Outcomes
  import opened Text
  import opened Decimals
  import opened JsonValues

  // FLOAT64, exactly: a finite number is counted in its smallest units.
  datatype Double = Finite(units: int) | NegativeZero | NaN | Infinity | NegativeInfinity

  // strconv.ParseFloat and FormatFloat, the doubles that exist, and the units in a quarter of a turn.
  datatype FloatCodec = FloatCodec(parse: string -> Option<Double>, format: Double -> string, fits: Double -> bool, quarter: nat)

  datatype Value =
    | VBool(b: bool)
    | VInt(n: int)
    | VFloat(d: Double)
    | VStr(s: string)
    | VText(tag: string, text: string)
    | VUuid(text: string)
    | VZoned(text: string, zone: string)
    | VPoint(crs: string, coordinates: seq<Double>)
    | VList(items: seq<Value>)

  datatype Family = FBoolean | FInteger | FFloat | FString | FDate | FLocalTime | FTime | FLocalDateTime | FZonedDateTime | FDuration | FPoint | FUuid | FList

  const JSSafeInteger := 9_007_199_254_740_991

  const TypeKey := "$type"
  const ValueKey := "value"
  const ZoneKey := "zone"
  const CrsKey := "crs"
  const CoordinatesKey := "coordinates"

  const IntegerTag := "Integer"
  const FloatTag := "Float"
  const UuidTag := "UUID"
  const ZonedTag := "ZonedDateTime"
  const PointTag := "Point"
  const VectorTag := "Vector"
  const TextTags := ["Date", "LocalTime", "Time", "LocalDateTime", "Duration"]

  function FamilyOf(v: Value): Family {
    match v
    case VBool(_) => FBoolean
    case VInt(_) => FInteger
    case VFloat(_) => FFloat
    case VStr(_) => FString
    case VText(tag, _) =>
      if tag == "Date" then FDate else if tag == "LocalTime" then FLocalTime else if tag == "Time" then FTime
      else if tag == "LocalDateTime" then FLocalDateTime else FDuration
    case VUuid(_) => FUuid
    case VZoned(_, _) => FZonedDateTime
    case VPoint(_, _) => FPoint
    case VList(_) => FList
  }

  // ----- numbers

  predicate LooksLikeFloat(text: string) {
    '.' in text || 'e' in text || 'E' in text
  }

  // canonicalFloatRaw on what is finite.
  function FloatText(c: FloatCodec, d: Double): string {
    var text := c.format(d);
    if text == "-0" then "-0.0" else if !LooksLikeFloat(text) then text + ".0" else text
  }

  lemma FloatTextLooks(c: FloatCodec, d: Double)
    ensures LooksLikeFloat(FloatText(c, d))
  {
    var text := c.format(d);
    assert "-0.0"[2] == '.' && (text + ".0")[|text|] == '.';
  }

  // math.Mod: the remainder has the sign of the dividend.
  function TruncMod(a: int, m: int): int
    requires m > 0
  {
    if a >= 0 then a % m else -(-a % m)
  }

  // normalizeLongitude, over exact arithmetic.
  function NormalizeLongitude(quarter: nat, d: Double): Double {
    if quarter == 0 || !d.Finite? || -2 * quarter <= d.units <= 2 * quarter then d
    else Finite(TruncMod(TruncMod(d.units + 2 * quarter, 4 * quarter) + 4 * quarter, 4 * quarter) - 2 * quarter)
  }

  predicate WithinHalfTurn(quarter: nat, d: Double) {
    d.Finite? ==> -2 * quarter <= d.units <= 2 * quarter
  }

  ghost predicate Congruent(a: int, b: int, m: int) {
    exists k: int :: a - b == k * m
  }

  lemma TruncModFacts(a: int, m: int)
    requires m > 0
    ensures -m < TruncMod(a, m) < m && (a >= 0 ==> TruncMod(a, m) >= 0) && Congruent(a, TruncMod(a, m), m)
  {
    if a >= 0 {
      assert a - a % m == (a / m) * m;
    } else {
      var b := -a;
      assert b == (b / m) * m + b % m;
      assert a - TruncMod(a, m) == -(b / m) * m;
    }
  }

  lemma CongruentChain(a: int, b: int, c: int, m: int)
    requires Congruent(a, b, m) && Congruent(b, c, m)
    ensures Congruent(a, c, m)
  {
    var i: int :| a - b == i * m;
    var k: int :| b - c == k * m;
    assert a - c == (i + k) * m;
  }

  // A longitude lands in [-180, 180], congruent to what it was modulo a full turn; one that is there stays.
  lemma LongitudeWraps(quarter: nat, units: int)
    requires quarter > 0
    ensures var r := NormalizeLongitude(quarter, Finite(units));
            && r.Finite? && WithinHalfTurn(quarter, r) && Congruent(units, r.units, 4 * quarter)
            && NormalizeLongitude(quarter, r) == r
            && (WithinHalfTurn(quarter, Finite(units)) ==> r == Finite(units))
  {
    var m, h := 4 * quarter, 2 * quarter;
    if -h <= units <= h {
      assert units - units == 0 * m;
    } else {
      var x := TruncMod(units + h, m);
      TruncModFacts(units + h, m);
      var y := TruncMod(x + m, m);
      TruncModFacts(x + m, m);
      assert x - (x + m) == (-1) * m;
      CongruentChain(units + h, x, x + m, m);
      CongruentChain(units + h, x + m, y, m);
      var k: int :| units + h - y == k * m;
      assert units - (y - h) == k * m;
    }
  }

  // There is one such longitude but for the two ends, which are the same meridian.
  lemma LongitudeUnique(quarter: nat, a: int, b: int)
    requires quarter > 0 && -2 * quarter <= a <= 2 * quarter && -2 * quarter <= b <= 2 * quarter && Congruent(a, b, 4 * quarter)
    ensures a == b || (a == 2 * quarter && b == -2 * quarter) || (a == -2 * quarter && b == 2 * quarter)
  {
    var m := 4 * quarter;
    var k: int :| a - b == k * m;
    assert -m <= k * m <= m;
    assert k >= 2 ==> k * m >= 2 * m;
    assert k <= -2 ==> k * m <= -2 * m;
  }

  // Parsing gives doubles that exist, and every finite one is parsed from its text.
  ghost predicate SoundCodec(c: FloatCodec) {
    && c.quarter > 0
    && (forall t {:trigger c.parse(t)} :: c.parse(t).Some? ==> c.fits(c.parse(t).value))
    && (forall d {:trigger c.fits(d)} :: c.fits(d) ==>
          (d.Finite? || d.NegativeZero?) && c.parse(FloatText(c, d)) == Some(d) && c.fits(NormalizeLongitude(c.quarter, d)))
  }

  // ----- texts

  function ToLower(c: char): char {
    if 'A' <= c <= 'Z' then c - 'A' + 'a' else c
  }

  function Lower(s: string): (r: string)
    ensures |r| == |s| && forall k {:trigger r[k]} :: 0 <= k < |s| ==> r[k] == ToLower(s[k])
  {
    seq(|s|, k requires 0 <= k < |s| => ToLower(s[k]))
  }

  lemma LowerTwice(s: string)
    ensures Lower(Lower(s)) == Lower(s)
  {
  }

  predicate HexDigit(c: char) {
    '0' <= c <= '9' || 'a' <= c <= 'f' || 'A' <= c <= 'F'
  }

  predicate DashAt(k: int) {
    k == 8 || k == 13 || k == 18 || k == 23
  }

  predicate IsUuid(s: string) {
    |s| == 36 && forall k {:trigger s[k]} :: 0 <= k < 36 ==> if DashAt(k) then s[k] == '-' else HexDigit(s[k])
  }

  // canonicalUUID.
  method CanonicalUuid(value: string) returns (r: Option<string>)
    ensures r == if IsUuid(value) then Some(Lower(value)) else None
  {
    if |value| != 36 || value[8] != '-' || value[13] != '-' || value[18] != '-' || value[23] != '-' {
      return None;
    }
    var k := 0;
    while k < |value|
      invariant 0 <= k <= 36
      invariant forall i {:trigger value[i]} :: 0 <= i < k ==> if DashAt(i) then value[i] == '-' else HexDigit(value[i])
    {
      if !DashAt(k) && !HexDigit(value[k]) {
        return None;
      }
      k := k + 1;
    }
    return Some(Lower(value));
  }

  lemma LowerUuid(s: string)
    requires IsUuid(s)
    ensures IsUuid(Lower(s))
  {
  }

  // ----- what a value is written as

  function Coordinates(c: FloatCodec, ds: seq<Double>): (r: seq<Json>)
    ensures |r| == |ds| && forall k {:trigger r[k]} :: 0 <= k < |r| ==> r[k] == Number(FloatText(c, ds[k]))
  {
    seq(|ds|, k requires 0 <= k < |ds| => Number(FloatText(c, ds[k])))
  }

  function Tagged(tag: string, text: string): Json {
    Obj(map[TypeKey := Str(tag), ValueKey := Str(text)])
  }

  function PrintFloat(c: FloatCodec, d: Double): Json {
    match d
    case NaN => Tagged(FloatTag, "NaN")
    case Infinity => Tagged(FloatTag, "Infinity")
    case NegativeInfinity => Tagged(FloatTag, "-Infinity")
    case _ => Number(FloatText(c, d))
  }

  function PrintInt(n: int): Json {
    if -JSSafeInteger <= n <= JSSafeInteger then Number(FormatInt(n)) else Tagged(IntegerTag, FormatInt(n))
  }

  function Print(c: FloatCodec, v: Value): Json
    decreases v, 0
  {
    match v
    case VBool(b) => Bool(b)
    case VInt(n) => PrintInt(n)
    case VFloat(d) => PrintFloat(c, d)
    case VStr(s) => Str(s)
    case VText(tag, text) => Tagged(tag, text)
    case VUuid(text) => Tagged(UuidTag, text)
    case VZoned(text, zone) => Obj(map[TypeKey := Str(ZonedTag), ValueKey := Str(text), ZoneKey := Str(zone)])
    case VPoint(crs, ds) => Obj(map[TypeKey := Str(PointTag), CrsKey := Str(crs), CoordinatesKey := Arr(Coordinates(c, ds))])
    case VList(items) => Arr(PrintAll(c, items))
  }

  function PrintAll(c: FloatCodec, items: seq<Value>): (r: seq<Json>)
    ensures |r| == |items| && forall k {:trigger r[k]} :: 0 <= k < |r| ==> r[k] == Print(c, items[k])
    decreases items, 0
  {
    seq(|items|, k requires 0 <= k < |items| => Print(c, items[k]))
  }

  // ----- what a JSON value stands for

  function DenotedNumber(c: FloatCodec, text: string): Option<Value> {
    if !LooksLikeFloat(text) then
      match ParseInt(text)
      case None => None
      case Some(n) => Some(VInt(n))
    else
      match c.parse(text)
      case None => None
      case Some(d) => Some(VFloat(d))
  }

  function DenotedInteger(text: string): Option<Value> {
    match ParseInt(text)
    case None => None
    case Some(n) => if FormatInt(n) == text then Some(VInt(n)) else None
  }

  function DenotedFloat(text: string): Option<Value> {
    if text == "NaN" then Some(VFloat(NaN))
    else if text == "Infinity" then Some(VFloat(Infinity))
    else if text == "-Infinity" then Some(VFloat(NegativeInfinity))
    else None
  }

  function Dimension(crs: string): (r: Option<nat>)
    ensures r.Some? ==> r.value == 2 || r.value == 3
  {
    if crs == "wgs-84" || crs == "cartesian" then Some(2)
    else if crs == "wgs-84-3d" || crs == "cartesian-3d" then Some(3)
    else None
  }

  predicate Geographic(crs: string) {
    crs == "wgs-84" || crs == "wgs-84-3d"
  }

  predicate LatitudeFits(c: FloatCodec, d: Double) {
    d.Finite? ==> -1 * c.quarter <= d.units <= c.quarter
  }

  function Coordinate(c: FloatCodec, j: Json): Option<Double> {
    if j.Number? then c.parse(j.text) else None
  }

  predicate Parses(c: FloatCodec, j: Json) {
    Coordinate(c, j).Some?
  }

  function Parsed(c: FloatCodec, items: seq<Json>): (r: seq<Double>)
    requires forall k :: 0 <= k < |items| ==> Parses(c, items[k])
    ensures |r| == |items| && forall k {:trigger r[k]} :: 0 <= k < |r| ==> Some(r[k]) == Coordinate(c, items[k])
  {
    seq(|items|, k requires 0 <= k < |items| && Parses(c, items[k]) => Coordinate(c, items[k]).value)
  }

  function DenotedPoint(c: FloatCodec, crsText: string, items: seq<Json>): Option<Value> {
    var crs := Lower(crsText);
    if Dimension(crs) != Some(|items|) || !(forall k :: 0 <= k < |items| ==> Parses(c, items[k])) then None
    else
      var ds := Parsed(c, items);
      if !Geographic(crs) then Some(VPoint(crs, ds))
      else if !LatitudeFits(c, ds[1]) then None
      else Some(VPoint(crs, ds[0 := NormalizeLongitude(c.quarter, ds[0])]))
  }

  function DenotedTagged(c: FloatCodec, m: map<string, Json>): Option<Value> {
    if TypeKey !in m || !m[TypeKey].Str? then None
    else
      var tag := m[TypeKey].s;
      if tag == ZonedTag then
        if m.Keys == {TypeKey, ValueKey, ZoneKey} && m[ValueKey].Str? && m[ZoneKey].Str? && m[ValueKey].s != "" && m[ZoneKey].s != ""
        then Some(VZoned(m[ValueKey].s, m[ZoneKey].s)) else None
      else if tag == PointTag then
        if m.Keys == {TypeKey, CrsKey, CoordinatesKey} && m[CrsKey].Str? && m[CoordinatesKey].Arr?
        then DenotedPoint(c, m[CrsKey].s, m[CoordinatesKey].items) else None
      else if m.Keys != {TypeKey, ValueKey} || !m[ValueKey].Str? then None
      else DenotedText(tag, m[ValueKey].s)
  }

  function DenotedText(tag: string, text: string): Option<Value> {
    if tag == IntegerTag then DenotedInteger(text)
    else if tag == FloatTag then DenotedFloat(text)
    else if tag == UuidTag then if IsUuid(text) then Some(VUuid(Lower(text))) else None
    else if tag in TextTags then if text != "" then Some(VText(tag, text)) else None
    else None
  }

  function DenotedScalar(c: FloatCodec, j: Json): Option<Value> {
    match j
    case Null => None
    case Bool(b) => Some(VBool(b))
    case Number(text) => DenotedNumber(c, text)
    case Str(s) => Some(VStr(s))
    case Arr(_) => None
    case Obj(members) => DenotedTagged(c, members)
  }

  predicate Denotes(c: FloatCodec, j: Json) {
    DenotedScalar(c, j).Some?
  }

  function DenotedItems(c: FloatCodec, items: seq<Json>): (r: seq<Value>)
    requires forall k :: 0 <= k < |items| ==> Denotes(c, items[k])
    ensures |r| == |items| && forall k {:trigger r[k]} :: 0 <= k < |r| ==> Some(r[k]) == DenotedScalar(c, items[k])
  {
    seq(|items|, k requires 0 <= k < |items| && Denotes(c, items[k]) => DenotedScalar(c, items[k]).value)
  }

  predicate OneFamily(vs: seq<Value>) {
    forall k {:trigger vs[k]} :: 0 <= k < |vs| ==> FamilyOf(vs[k]) == FamilyOf(vs[0])
  }

  // A list holds scalars of one family; it is not nested.
  function Denoted(c: FloatCodec, j: Json, allowList: bool): Option<Value> {
    if !j.Arr? then DenotedScalar(c, j)
    else if !allowList || !(forall k :: 0 <= k < |j.items| ==> Denotes(c, j.items[k])) || !OneFamily(DenotedItems(c, j.items)) then None
    else Some(VList(DenotedItems(c, j.items)))
  }

  // ----- the values there are

  predicate GoodScalar(c: FloatCodec, v: Value) {
    match v
    case VBool(_) => true
    case VInt(n) => MinInt <= n <= MaxInt
    case VFloat(d) => d in [NaN, Infinity, NegativeInfinity] || c.fits(d)
    case VStr(_) => true
    case VText(tag, text) => tag in TextTags && text != ""
    case VUuid(text) => IsUuid(text) && Lower(text) == text
    case VZoned(text, zone) => text != "" && zone != ""
    case VPoint(crs, ds) =>
      && Lower(crs) == crs && Dimension(crs) == Some(|ds|) && (forall k :: 0 <= k < |ds| ==> c.fits(ds[k]))
      && (Geographic(crs) ==> LatitudeFits(c, ds[1]) && NormalizeLongitude(c.quarter, ds[0]) == ds[0])
    case VList(_) => false
  }

  predicate Good(c: FloatCodec, v: Value) {
    if v.VList? then OneFamily(v.items) && forall k :: 0 <= k < |v.items| ==> GoodScalar(c, v.items[k])
    else GoodScalar(c, v)
  }

  lemma LongitudeSettles(c: FloatCodec, d: Double)
    requires c.quarter > 0
    ensures NormalizeLongitude(c.quarter, NormalizeLongitude(c.quarter, d)) == NormalizeLongitude(c.quarter, d)
  {
    if d.Finite? {
      LongitudeWraps(c.quarter, d.units);
    }
  }

  lemma DenotedPointIsGood(c: FloatCodec, crsText: string, items: seq<Json>)
    requires SoundCodec(c) && DenotedPoint(c, crsText, items).Some?
    ensures GoodScalar(c, DenotedPoint(c, crsText, items).value)
  {
    var ds := Parsed(c, items);
    forall k | 0 <= k < |ds| ensures c.fits(ds[k]) {
      assert Coordinate(c, items[k]) == Some(ds[k]);
    }
    LowerTwice(crsText);
    LongitudeSettles(c, ds[0]);
  }

  lemma DenotedScalarIsGood(c: FloatCodec, j: Json)
    requires SoundCodec(c) && DenotedScalar(c, j).Some?
    ensures GoodScalar(c, DenotedScalar(c, j).value)
  {
    if j.Obj? {
      var m := j.members;
      var tag := m[TypeKey].s;
      if tag == PointTag {
        DenotedPointIsGood(c, m[CrsKey].s, m[CoordinatesKey].items);
      } else if tag == UuidTag {
        LowerUuid(m[ValueKey].s);
        LowerTwice(m[ValueKey].s);
      }
    }
  }

  lemma DenotedIsGood(c: FloatCodec, j: Json, allowList: bool)
    requires SoundCodec(c) && Denoted(c, j, allowList).Some?
    ensures Good(c, Denoted(c, j, allowList).value)
  {
    if j.Arr? {
      var vs := DenotedItems(c, j.items);
      forall k | 0 <= k < |vs| ensures GoodScalar(c, vs[k]) {
        DenotedScalarIsGood(c, j.items[k]);
      }
    } else {
      DenotedScalarIsGood(c, j);
    }
  }

  // ----- what is written stands for what was written

  lemma IntegerLooks(n: int)
    ensures !LooksLikeFloat(FormatInt(n))
  {
    var s := FormatInt(n);
    forall k | 0 <= k < |s| ensures s[k] != '.' && s[k] != 'e' && s[k] != 'E' {
      if n < 0 && k > 0 {
        assert s[k] == s[1..][k - 1];
      }
    }
  }

  // Such a codec exists: whole units up to INTEGER64, printed in decimal.
  function WholeUnits(): FloatCodec {
    FloatCodec(
      (t: string) =>
        if t == "-0.0" then Some(NegativeZero)
        else if |t| < 2 || t[|t| - 2..] != ".0" || ParseInt(t[..|t| - 2]).None? then None
        else Some(Finite(ParseInt(t[..|t| - 2]).value)),
      (d: Double) => if d.Finite? then FormatInt(d.units) else "-0",
      (d: Double) => d.NegativeZero? || (d.Finite? && MinInt <= d.units <= MaxInt),
      1)
  }

  lemma WholeUnitsFormat(u: int)
    requires MinInt <= u <= MaxInt
    ensures FloatText(WholeUnits(), Finite(u)) == FormatInt(u) + ".0" && FormatInt(u) + ".0" != "-0.0"
  {
    IntegerLooks(u);
    ParseFormatted(u);
    var s := FormatInt(u);
    assert (s + ".0")[..|s|] == s && "-0.0"[..2] == "-0";
    if u < 0 {
      NumberOfDecimal(-u);
      assert s[1..] == Decimal(-u);
      assert NumberOf("") == 0 && NumberOf("0") == 0;
      assert "-0"[1..] == "0";
    }
  }

  lemma CodecExists()
    ensures SoundCodec(WholeUnits())
  {
    var c := WholeUnits();
    forall d | c.fits(d) ensures c.parse(FloatText(c, d)) == Some(d) && c.fits(NormalizeLongitude(c.quarter, d)) {
      if d.Finite? {
        WholeUnitsFormat(d.units);
        ParseFormatted(d.units);
        var s := FormatInt(d.units);
        assert (s + ".0")[|s + ".0"| - 2..] == ".0" && (s + ".0")[..|s + ".0"| - 2] == s;
        LongitudeWraps(1, d.units);
      }
    }
  }

  lemma TaggedKeys(tag: string, text: string)
    ensures var m := Tagged(tag, text).members;
            m.Keys == {TypeKey, ValueKey} && m[TypeKey] == Str(tag) && m[ValueKey] == Str(text)
  {
    assert TypeKey[0] != ValueKey[0];
  }

  lemma TagsApart()
    ensures forall tag :: tag in TextTags ==> tag != ZonedTag && tag != PointTag && tag != IntegerTag && tag != FloatTag && tag != UuidTag
    ensures IntegerTag != ZonedTag && IntegerTag != PointTag && FloatTag != ZonedTag && FloatTag != PointTag && FloatTag != IntegerTag
    ensures UuidTag != ZonedTag && UuidTag != PointTag && UuidTag != IntegerTag && UuidTag != FloatTag && ZonedTag != PointTag
  {
    assert IntegerTag[0] == 'I' && FloatTag[0] == 'F' && UuidTag[0] == 'U' && ZonedTag[0] == 'Z' && PointTag[0] == 'P';
    forall tag | tag in TextTags ensures tag[0] == 'D' || tag[0] == 'L' || tag[0] == 'T' {
    }
  }

  lemma TaggedReads(c: FloatCodec, tag: string, text: string)
    requires tag != ZonedTag && tag != PointTag
    ensures DenotedScalar(c, Tagged(tag, text)) == DenotedText(tag, text)
  {
    TaggedKeys(tag, text);
  }

  lemma IntReads(c: FloatCodec, n: int)
    requires MinInt <= n <= MaxInt
    ensures DenotedScalar(c, PrintInt(n)) == Some(VInt(n))
  {
    ParseFormatted(n);
    IntegerLooks(n);
    TagsApart();
    TaggedReads(c, IntegerTag, FormatInt(n));
  }

  lemma FloatReads(c: FloatCodec, d: Double)
    requires SoundCodec(c) && (d in [NaN, Infinity, NegativeInfinity] || c.fits(d))
    ensures DenotedScalar(c, PrintFloat(c, d)) == Some(VFloat(d))
  {
    TagsApart();
    if c.fits(d) {
      FloatTextLooks(c, d);
    } else {
      assert "NaN" != "Infinity" && "Infinity"[0] != "-Infinity"[0] && "NaN"[0] != "-Infinity"[0];
      TaggedReads(c, FloatTag, "NaN");
      TaggedReads(c, FloatTag, "Infinity");
      TaggedReads(c, FloatTag, "-Infinity");
    }
  }

  lemma KeysApart()
    ensures TypeKey != ValueKey && TypeKey != ZoneKey && ValueKey != ZoneKey && TypeKey != CrsKey && TypeKey != CoordinatesKey && CrsKey != CoordinatesKey
  {
    assert TypeKey[0] == '$' && ValueKey[0] == 'v' && ZoneKey[0] == 'z' && CrsKey[1] == 'r' && CoordinatesKey[1] == 'o';
  }

  lemma ZonedReads(c: FloatCodec, text: string, zone: string)
    requires text != "" && zone != ""
    ensures DenotedScalar(c, Print(c, VZoned(text, zone))) == Some(VZoned(text, zone))
  {
    KeysApart();
    var m := Print(c, VZoned(text, zone)).members;
    assert m.Keys == {TypeKey, ValueKey, ZoneKey};
  }

  lemma PointReads(c: FloatCodec, crs: string, ds: seq<Double>)
    requires SoundCodec(c) && GoodScalar(c, VPoint(crs, ds))
    ensures DenotedScalar(c, Print(c, VPoint(crs, ds))) == Some(VPoint(crs, ds))
  {
    KeysApart();
    TagsApart();
    var items := Coordinates(c, ds);
    forall k | 0 <= k < |items| ensures Parses(c, items[k]) && Coordinate(c, items[k]) == Some(ds[k]) {
      assert c.fits(ds[k]);
    }
    assert Parsed(c, items) == ds;
    assert DenotedPoint(c, crs, items) == Some(VPoint(crs, ds)) by {
      if Geographic(crs) {
        assert ds[0 := ds[0]] == ds;
      }
    }
    var m := Print(c, VPoint(crs, ds)).members;
    assert m.Keys == {TypeKey, CrsKey, CoordinatesKey};
  }

  lemma ScalarReads(c: FloatCodec, v: Value)
    requires SoundCodec(c) && GoodScalar(c, v)
    ensures DenotedScalar(c, Print(c, v)) == Some(v)
  {
    match v
    case VBool(_) =>
    case VInt(n) => IntReads(c, n);
    case VFloat(d) => FloatReads(c, d);
    case VStr(_) =>
    case VText(tag, text) =>
      TagsApart();
      TaggedReads(c, tag, text);
    case VUuid(text) =>
      TagsApart();
      TaggedReads(c, UuidTag, text);
    case VZoned(text, zone) => ZonedReads(c, text, zone);
    case VPoint(crs, ds) => PointReads(c, crs, ds);
  }

  // Every value is read back from its canonical form.
  lemma CanonicalReads(c: FloatCodec, v: Value)
    requires SoundCodec(c) && Good(c, v)
    ensures Denoted(c, Print(c, v), true) == Some(v)
    ensures !v.VList? ==> Denoted(c, Print(c, v), false) == Some(v)
  {
    if v.VList? {
      var items := PrintAll(c, v.items);
      forall k | 0 <= k < |items| ensures Denotes(c, items[k]) && DenotedScalar(c, items[k]) == Some(v.items[k]) {
        ScalarReads(c, v.items[k]);
      }
      assert DenotedItems(c, items) == v.items;
    } else {
      ScalarReads(c, v);
      assert !Print(c, v).Arr?;
    }
  }

  // ----- normalizing

  // The canonical form of a property value.
  function Normal(c: FloatCodec, j: Json): Option<Json> {
    match Denoted(c, j, true)
    case None => None
    case Some(v) => Some(Print(c, v))
  }

  // Normalizing a canonical value returns it, and its family with it.
  lemma NormalTwice(c: FloatCodec, j: Json)
    requires SoundCodec(c) && Normal(c, j).Some?
    ensures Normal(c, Normal(c, j).value) == Normal(c, j)
    ensures Denoted(c, Normal(c, j).value, true) == Denoted(c, j, true)
  {
    DenotedIsGood(c, j, true);
    CanonicalReads(c, Denoted(c, j, true).value);
  }

  // Two values have one canonical form exactly when they stand for the same.
  lemma SameFormSameValue(c: FloatCodec, j: Json, k: Json)
    requires SoundCodec(c) && Normal(c, j).Some? && Normal(c, k).Some?
    ensures Normal(c, j) == Normal(c, k) <==> Denoted(c, j, true) == Denoted(c, k, true)
  {
    NormalTwice(c, j);
    NormalTwice(c, k);
  }

  // On both sides of the tagging boundary an integer has one form, and it is tagged outside.
  lemma IntegerForms(c: FloatCodec, n: int)
    requires SoundCodec(c) && MinInt <= n <= MaxInt
    ensures Normal(c, Number(FormatInt(n))) == Some(PrintInt(n)) == Normal(c, Tagged(IntegerTag, FormatInt(n)))
    ensures Normal(c, PrintInt(n)) == Some(PrintInt(n))
    ensures PrintInt(n).Number? <==> -JSSafeInteger <= n <= JSSafeInteger
  {
    ParseFormatted(n);
    IntegerLooks(n);
    TagsApart();
    TaggedReads(c, IntegerTag, FormatInt(n));
    IntReads(c, n);
    assert !PrintInt(n).Arr?;
  }

  // ----- the forms by name

  function PointForm(crs: string, items: seq<Json>): Json {
    Obj(map["$type" := Str("Point"), "crs" := Str(crs), "coordinates" := Arr(items)])
  }

  function TextForm(tag: string, text: string): Json {
    Obj(map["$type" := Str(tag), "value" := Str(text)])
  }

  // A finite number, and one between the poles.
  predicate ReadsNumber(c: FloatCodec, j: Json) {
    j.Number? && c.parse(j.text).Some?
  }

  predicate ReadsLatitude(c: FloatCodec, j: Json) {
    ReadsNumber(c, j) && (c.parse(j.text).value.Finite? ==> -1 * c.quarter <= c.parse(j.text).value.units <= c.quarter)
  }

  lemma PointKeys(crs: string, items: seq<Json>)
    ensures PointForm(crs, items).members.Keys == {TypeKey, CrsKey, CoordinatesKey}
    ensures PointForm(crs, items).members[TypeKey] == Str(PointTag)
    ensures PointForm(crs, items).members[CrsKey] == Str(crs) && PointForm(crs, items).members[CoordinatesKey] == Arr(items)
  {
    assert |TypeKey| == 5 && |CrsKey| == 3 && |CoordinatesKey| == 11;
  }

  lemma PointDenotes(c: FloatCodec, crs: string, items: seq<Json>)
    ensures Denoted(c, PointForm(crs, items), true) == DenotedPoint(c, crs, items)
  {
    PointKeys(crs, items);
    TagsApart();
  }

  // The four coordinate systems, in any letter case: two coordinates or three, and on the globe a latitude between
  // the poles.
  predicate PointAllowed(c: FloatCodec, crs: string, items: seq<Json>) {
    && (forall k {:trigger items[k]} :: 0 <= k < |items| ==> ReadsNumber(c, items[k]))
    && (|| (crs == "cartesian" && |items| == 2)
        || (crs == "cartesian-3d" && |items| == 3)
        || (crs == "wgs-84" && |items| == 2 && ReadsLatitude(c, items[1]))
        || (crs == "wgs-84-3d" && |items| == 3 && ReadsLatitude(c, items[1])))
  }

  // A point is accepted exactly in these forms.
  lemma PointForms(c: FloatCodec, crs: string, items: seq<Json>)
    ensures Normal(c, PointForm(crs, items)).Some? <==> PointAllowed(c, Lower(crs), items)
  {
    LowerCase(crs);
    PointDenotes(c, crs, items);
    assert forall k {:trigger items[k]} :: 0 <= k < |items| ==> (Parses(c, items[k]) <==> ReadsNumber(c, items[k]));
  }

  lemma TextKeys(tag: string, text: string)
    ensures TextForm(tag, text) == Tagged(tag, text)
  {
  }

  // Dates, times and durations are kept as they are written, and are never empty.
  lemma TextForms(c: FloatCodec, tag: string, text: string)
    requires tag == "Date" || tag == "LocalTime" || tag == "Time" || tag == "LocalDateTime" || tag == "Duration"
    ensures Normal(c, TextForm(tag, text)) == if text == "" then None else Some(TextForm(tag, text))
  {
    TextKeys(tag, text);
    assert tag in TextTags;
    TagsApart();
    TaggedReads(c, tag, text);
  }

  // A number with a point or an exponent is a float, any other an integer of 64 bits.
  lemma NumberForms(c: FloatCodec, text: string)
    ensures (exists k :: 0 <= k < |text| && text[k] in {'.', 'e', 'E'}) ==> (Normal(c, Number(text)).Some? <==> c.parse(text).Some?)
    ensures !(exists k :: 0 <= k < |text| && text[k] in {'.', 'e', 'E'}) ==> (Normal(c, Number(text)).Some? <==> ParseInt(text).Some?)
  {
  }

  lemma LowerCase(s: string)
    ensures |Lower(s)| == |s|
    ensures forall k :: 0 <= k < |s| ==> Lower(s)[k] == if 'A' <= s[k] <= 'Z' then s[k] + ('a' - 'A') else s[k]
  {
  }

  // A UUID is accepted in any letter case, with its hyphens in their places, and kept in lower case.
  lemma UuidForms(c: FloatCodec, text: string)
    ensures var uuid := |text| == 36
              && (forall k :: 0 <= k < 36 ==>
                   if k in {8, 13, 18, 23} then text[k] == '-' else '0' <= text[k] <= '9' || 'a' <= text[k] <= 'f' || 'A' <= text[k] <= 'F');
            Normal(c, TextForm("UUID", text)) == if uuid then Some(TextForm("UUID", Lower(text))) else None
  {
    LowerCase(text);
    TextKeys("UUID", text);
    TextKeys("UUID", Lower(text));
    TagsApart();
    TaggedReads(c, "UUID", text);
  }
}

module PropertyNormalizer {
  import opened Outcomes
  import opened Sizes
  import opened Text
  import opened Decimals
  import opened JsonValues
  import opened PropertyValues
  import opened AggregateLens

  // requireKnowledgeTaggedFields.
  method RequireTaggedFields(m: map<string, Json>, fields: seq<string>) returns (ok: bool)
    requires forall i, j :: 0 <= i < j < |fields| ==> fields[i] != fields[j]
    ensures ok <==> forall key :: key in m <==> key in fields
  {
    var want := set field | field in fields;
    FieldCount(fields);
    assert (forall key :: key in m <==> key in fields) ==> m.Keys == want;
    if |m| != |fields| {
      return false;
    }
    var keys := m.Keys;
    while keys != {}
      invariant keys <= m.Keys && forall key :: key in m && key !in keys ==> key in want
      decreases |keys|
    {
      var key :| key in keys;
      if key !in want {
        return false;
      }
      keys := keys - {key};
    }
    SameSize(m.Keys, want);
    return true;
  }

  lemma {:induction false} FieldCount(fields: seq<string>)
    requires forall i, j :: 0 <= i < j < |fields| ==> fields[i] != fields[j]
    ensures |set field | field in fields| == |fields|
  {
    if fields != [] {
      var n := |fields| - 1;
      FieldCount(fields[..n]);
      assert (set field | field in fields) == (set field | field in fields[..n]) + {fields[n]};
    }
  }

  // normalizeTextTaggedValue, up to the text itself.
  method TaggedText(m: map<string, Json>) returns (r: Option<string>)
    ensures r == if m.Keys == {TypeKey, ValueKey} && m[ValueKey].Str? && m[ValueKey].s != "" then Some(m[ValueKey].s) else None
  {
    KeysApart();
    var ok := RequireTaggedFields(m, [TypeKey, ValueKey]);
    assert ok <==> m.Keys == {TypeKey, ValueKey};
    if !ok || !m[ValueKey].Str? || m[ValueKey].s == "" {
      return None;
    }
    return Some(m[ValueKey].s);
  }

  // normalizeKnowledgePoint.
  method NormalizePoint(c: FloatCodec, m: map<string, Json>) returns (r: Option<Json>)
    requires TypeKey in m && m[TypeKey] == Str(PointTag)
    ensures r.Some? <==> DenotedTagged(c, m).Some?
    ensures r.Some? ==> r.value == Print(c, DenotedTagged(c, m).value)
  {
    KeysApart();
    TagsApart();
    var ok := RequireTaggedFields(m, [TypeKey, CrsKey, CoordinatesKey]);
    assert ok <==> m.Keys == {TypeKey, CrsKey, CoordinatesKey};
    if !ok || !m[CrsKey].Str? {
      return None;
    }
    var crs := Lower(m[CrsKey].s);
    var dimension := Dimension(crs);
    if dimension.None? || !m[CoordinatesKey].Arr? || |m[CoordinatesKey].items| != dimension.value {
      return None;
    }
    var items := m[CoordinatesKey].items;
    var numeric := ParseCoordinates(c, items);
    if numeric.None? {
      return None;
    }
    var ds := numeric.value;
    if Geographic(crs) {
      if !LatitudeFits(c, ds[1]) {
        return None;
      }
      ds := ds[0 := NormalizeLongitude(c.quarter, ds[0])];
    }
    var parts := FormatCoordinates(c, ds);
    return Some(Obj(map[TypeKey := Str(PointTag), CrsKey := Str(crs), CoordinatesKey := Arr(parts)]));
  }

  method ParseCoordinates(c: FloatCodec, items: seq<Json>) returns (r: Option<seq<Double>>)
    ensures r.Some? <==> forall k :: 0 <= k < |items| ==> Parses(c, items[k])
    ensures r.Some? ==> r.value == Parsed(c, items)
  {
    var numeric: seq<Double> := [];
    var k := 0;
    while k < |items|
      invariant 0 <= k <= |items| && |numeric| == k
      invariant forall i {:trigger numeric[i]} {:trigger items[i]} :: 0 <= i < k ==> Coordinate(c, items[i]) == Some(numeric[i])
    {
      if !items[k].Number? || c.parse(items[k].text).None? {
        assert !Parses(c, items[k]);
        return None;
      }
      numeric := numeric + [c.parse(items[k].text).value];
      k := k + 1;
    }
    assert forall i :: 0 <= i < |items| ==> Parses(c, items[i]);
    assert numeric == Parsed(c, items);
    return Some(numeric);
  }

  method FormatCoordinates(c: FloatCodec, ds: seq<Double>) returns (parts: seq<Json>)
    ensures parts == Coordinates(c, ds)
  {
    parts := [];
    var k := 0;
    while k < |ds|
      invariant 0 <= k <= |ds| && parts == Coordinates(c, ds[..k])
    {
      parts := parts + [Number(FloatText(c, ds[k]))];
      k := k + 1;
    }
    assert ds[..|ds|] == ds;
  }

  // normalizeKnowledgeTaggedValue.
  method NormalizeTagged(c: FloatCodec, m: map<string, Json>) returns (r: Result<(Json, Family)>)
    ensures r.Success? <==> DenotedTagged(c, m).Some?
    ensures r.Success? ==> r.value == (Print(c, DenotedTagged(c, m).value), FamilyOf(DenotedTagged(c, m).value))
    ensures r.Failure? ==> r.code == if TypeKey in m && m[TypeKey] == Str(VectorTag) then UnsupportedOperation else TypeError
  {
    KeysApart();
    TagsApart();
    if TypeKey !in m || !m[TypeKey].Str? {
      return Failure(TypeError);
    }
    var tag := m[TypeKey].s;
    if tag == VectorTag {
      assert VectorTag[0] == 'V' && VectorTag !in TextTags && VectorTag != IntegerTag && VectorTag != FloatTag && VectorTag != UuidTag && VectorTag != ZonedTag && VectorTag != PointTag;
      return Failure(UnsupportedOperation);
    }
    if tag == PointTag {
      var point := NormalizePoint(c, m);
      return if point.Some? then Success((point.value, FPoint)) else Failure(TypeError);
    }
    if tag == ZonedTag {
      var ok := RequireTaggedFields(m, [TypeKey, ValueKey, ZoneKey]);
      assert ok <==> m.Keys == {TypeKey, ValueKey, ZoneKey};
      if !ok || !m[ValueKey].Str? || !m[ZoneKey].Str? || m[ValueKey].s == "" || m[ZoneKey].s == "" {
        return Failure(TypeError);
      }
      return Success((Obj(map[TypeKey := Str(ZonedTag), ValueKey := m[ValueKey], ZoneKey := m[ZoneKey]]), FZonedDateTime));
    }
    var text := TaggedText(m);
    r := NormalizeText(tag, m, text);
  }

  // The tags that carry one text.
  method NormalizeText(tag: string, m: map<string, Json>, text: Option<string>) returns (r: Result<(Json, Family)>)
    requires TypeKey in m && m[TypeKey] == Str(tag) && tag != VectorTag && tag != PointTag && tag != ZonedTag
    requires text == if m.Keys == {TypeKey, ValueKey} && m[ValueKey].Str? && m[ValueKey].s != "" then Some(m[ValueKey].s) else None
    ensures forall c :: r.Success? <==> DenotedTagged(c, m).Some?
    ensures forall c :: r.Success? ==> r.value == (Print(c, DenotedTagged(c, m).value), FamilyOf(DenotedTagged(c, m).value))
    ensures r.Failure? ==> r.code == TypeError
  {
    EmptyTexts(tag, m);
    TagsApart();
    if text.None? {
      return Failure(TypeError);
    }
    if tag == IntegerTag {
      var integer := ParseInt(text.value);
      if integer.None? || FormatInt(integer.value) != text.value {
        return Failure(TypeError);
      }
      return Success((PrintInt(integer.value), FInteger));
    }
    if tag == FloatTag {
      if text.value == "NaN" || text.value == "Infinity" || text.value == "-Infinity" {
        return Success((Tagged(FloatTag, text.value), FFloat));
      }
      return Failure(TypeError);
    }
    if tag == UuidTag {
      var canonical := CanonicalUuid(text.value);
      return if canonical.Some? then Success((Tagged(UuidTag, canonical.value), FUuid)) else Failure(TypeError);
    }
    if tag in TextTags {
      return Success((Tagged(tag, text.value), FamilyOf(VText(tag, text.value))));
    }
    return Failure(TypeError);
  }

  // No tag stands for anything with an empty text.
  lemma EmptyTexts(tag: string, m: map<string, Json>)
    ensures DenotedText(tag, "") == None
  {
    assert ParseInt("") == None;
  }

  // normalizeKnowledgePropertyDecoded: it succeeds exactly on what stands for a value, and then returns the
  // value's canonical form and family.
  method NormalizeProperty(c: FloatCodec, j: Json, allowList: bool) returns (r: Result<(Json, Family)>)
    ensures r.Success? <==> Denoted(c, j, allowList).Some?
    ensures r.Success? ==> r.value == (Print(c, Denoted(c, j, allowList).value), FamilyOf(Denoted(c, j, allowList).value))
    ensures r.Failure? && !j.Arr? ==> r.code == if j.Obj? && TypeKey in j.members && j.members[TypeKey] == Str(VectorTag) then UnsupportedOperation else TypeError
    decreases allowList
  {
    match j
    case Null => return Failure(TypeError);
    case Bool(b) => return Success((j, FBoolean));
    case Str(s) => return Success((j, FString));
    case Number(text) =>
      if !LooksLikeFloat(text) {
        var n := ParseInt(text);
        return if n.Some? then Success((PrintInt(n.value), FInteger)) else Failure(TypeError);
      }
      var d := c.parse(text);
      return if d.Some? then Success((PrintFloat(c, d.value), FFloat)) else Failure(TypeError);
    case Obj(members) =>
      r := NormalizeTagged(c, members);
    case Arr(items) =>
      if !allowList {
        return Failure(TypeError);
      }
      var parts: seq<Json> := [];
      var family: Option<Family> := None;
      ghost var values: seq<Value> := [];
      var k := 0;
      while k < |items|
        invariant 0 <= k <= |items| && |values| == k && parts == PrintAll(c, values) && OneFamily(values)
        invariant family == if k == 0 then None else Some(FamilyOf(values[0]))
        invariant forall i {:trigger values[i]} {:trigger items[i]} :: 0 <= i < k ==> DenotedScalar(c, items[i]) == Some(values[i])
      {
        var item := NormalizeProperty(c, items[k], false);
        assert Denoted(c, items[k], false) == DenotedScalar(c, items[k]);
        if item.Failure? {
          assert !Denotes(c, items[k]);
          return Failure(item.code);
        }
        ghost var v := DenotedScalar(c, items[k]).value;
        if family.None? {
          family := Some(item.value.1);
        } else if family != Some(item.value.1) {
          MixedFamilies(c, items, values, k);
          return Failure(TypeError);
        }
        parts := parts + [item.value.0];
        values := values + [v];
        k := k + 1;
      }
      assert forall i :: 0 <= i < |items| ==> Denotes(c, items[i]);
      assert values == DenotedItems(c, items);
      return Success((Arr(parts), FList));
  }

  lemma MixedFamilies(c: FloatCodec, items: seq<Json>, values: seq<Value>, k: nat)
    requires 0 < k < |items| && |values| == k && Denotes(c, items[k])
    requires forall i {:trigger values[i]} {:trigger items[i]} :: 0 <= i < k ==> DenotedScalar(c, items[i]) == Some(values[i])
    requires FamilyOf(DenotedScalar(c, items[k]).value) != FamilyOf(values[0])
    ensures Denoted(c, Arr(items), true) == None
  {
    if forall i :: 0 <= i < |items| ==> Denotes(c, items[i]) {
      var vs := DenotedItems(c, items);
      assert vs[0] == values[0] && vs[k] == DenotedScalar(c, items[k]).value;
    }
  }

  // The mappers of merge conflicts rely on this of the normalizer: canonical values settle, null is none.
  lemma NormalizerSettles(c: FloatCodec)
    requires SoundCodec(c)
    ensures Settling((j: Json) => Normal(c, j))
  {
    var canon := (j: Json) => Normal(c, j);
    forall j | canon(j).Some? ensures canon(j).value != Null && canon(canon(j).value) == canon(j) {
      NormalTwice(c, j);
    }
  }
}
