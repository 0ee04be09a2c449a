/** The lookup and formatting logic of
    be/apps/dashboard/src/modules/photos/components/library/PhotoExifDetailsModal.tsx:
    reading an EXIF field under any of its case variants, the text
    branches of the aperture, shutter and focal-length formatters, the
    file-format label, GPS hemispheres, readable values, the rating stars,
    and the assembly of the sections the dialog shows.

    Number parsing and fixed-point printing are parameters (`Number`,
    `parseFloat`-style parsing and `toFixed`); translation is a label
    function. */
module ExifDetails {
  import opened Common

  /** The picked EXIF record, its fields in insertion order. */
  type Exif = seq<(string, Json)>

  // ---------------------------------------------------------------------
  // Key lookup
  // ---------------------------------------------------------------------

  /** `key.charAt(0).toLowerCase() + key.slice(1)`. */
  function LowerFirst(key: string): (r: string)
    ensures |r| == |key| && (key != [] ==> r[0] == LowerChar(key[0]) && r[1..] == key[1..])
  {
    if key == [] then [] else [LowerChar(key[0])] + key[1..]
  }

  /** `key.charAt(0).toUpperCase() + key.slice(1)`. */
  function UpperFirst(key: string): (r: string)
    ensures |r| == |key| && (key != [] ==> r[0] == UpperChar(key[0]) && r[1..] == key[1..])
  {
    if key == [] then [] else [UpperChar(key[0])] + key[1..]
  }

  /** The spellings `candidateKeys` tries, in the order it lists them: the
      key as given, all lower case, all upper case, first letter lowered,
      first letter raised. */
  function KeyVariants(key: string): seq<string> {
    [key, ToLower(key), ToUpper(key), LowerFirst(key), UpperFirst(key)]
  }

  /** `candidateKeys`: each spelling once, in the order of its first
      listing. */
  function CandidateKeys(key: string): (r: seq<string>)
    ensures r != [] && r[0] == key && |r| <= 5
    ensures NoDuplicates(r)
    ensures forall c :: c in r <==> c in KeyVariants(key)
    ensures forall i, j :: 0 <= i < j < |r| ==> FirstIndex(KeyVariants(key), r[i]) < FirstIndex(KeyVariants(key), r[j])
  {
    DedupeKeepsFirstOrder(KeyVariants(key));
    Dedupe(KeyVariants(key))
  }

  /** A value `getExifValue` accepts: not null and not "". (`undefined` is
      an absent field.) */
  predicate Usable(v: Json) {
    v != JNull && v != JStr("")
  }

  predicate UsableAt(exif: Exif, key: string) {
    Get(exif, key).Some? && Usable(Get(exif, key).value)
  }

  /** The value of the first candidate with a usable value. */
  function FirstUsable(exif: Exif, candidates: seq<string>): (r: Option<Json>)
    ensures r.None? <==> forall i :: 0 <= i < |candidates| ==> !UsableAt(exif, candidates[i])
    ensures r.Some? ==> Usable(r.value)
    ensures r.Some? ==> exists i :: 0 <= i < |candidates| && Get(exif, candidates[i]) == r
  {
    if candidates == [] then None
    else
      assert forall i :: 1 <= i < |candidates| ==> candidates[i] == candidates[1..][i - 1];
      if UsableAt(exif, candidates[0]) then Get(exif, candidates[0])
      else FirstUsable(exif, candidates[1..])
  }

  /** The scan stops at the first usable candidate. */
  lemma {:induction false} FirstUsableIsFirst(exif: Exif, candidates: seq<string>, i: nat)
    requires i < |candidates| && UsableAt(exif, candidates[i])
    requires forall j :: 0 <= j < i ==> !UsableAt(exif, candidates[j])
    ensures FirstUsable(exif, candidates) == Get(exif, candidates[i])
  {
    if i > 0 {
      FirstUsableIsFirst(exif, candidates[1..], i - 1);
    }
  }

  /** Scanning a concatenation scans the second part only when the first
      yields nothing. */
  lemma {:induction false} FirstUsableAppend(exif: Exif, a: seq<string>, b: seq<string>)
    ensures FirstUsable(exif, a + b) == if FirstUsable(exif, a).Some? then FirstUsable(exif, a) else FirstUsable(exif, b)
  {
    if a != [] {
      assert (a + b)[1..] == a[1..] + b;
      FirstUsableAppend(exif, a[1..], b);
    } else {
      assert a + b == b;
    }
  }

  /** The outer loop of `getExifValue`: key by key, each key's candidates
      in order. */
  function ScanKeys(exif: Exif, keys: seq<string>): (r: Option<Json>)
    ensures r.Some? ==> Usable(r.value)
  {
    if keys == [] then None
    else
      var found := FirstUsable(exif, CandidateKeys(keys[0]));
      if found.Some? then found else ScanKeys(exif, keys[1..])
  }

  /** `getExifValue`: null without EXIF data, else the first usable value. */
  function GetExifValue(exif: Option<Exif>, keys: seq<string>): (r: Option<Json>)
    ensures exif.None? ==> r.None?
    ensures r.Some? ==> Usable(r.value)
  {
    if exif.None? then None else ScanKeys(exif.value, keys)
  }

  /** Every candidate of every key, in scanning order. */
  function AllCandidates(keys: seq<string>): seq<string> {
    if keys == [] then [] else CandidateKeys(keys[0]) + AllCandidates(keys[1..])
  }

  /** The nested loops are a single scan of all candidates: the result is
      the value of the first candidate, over all keys in argument order,
      that holds a usable value. */
  lemma {:induction false} GetExifValueScansInOrder(exif: Exif, keys: seq<string>)
    ensures GetExifValue(Some(exif), keys) == FirstUsable(exif, AllCandidates(keys))
  {
    if keys != [] {
      GetExifValueScansInOrder(exif, keys[1..]);
      FirstUsableAppend(exif, CandidateKeys(keys[0]), AllCandidates(keys[1..]));
    }
  }

  /** A field stored under the all-lower-case spelling of the key asked
      for is found. */
  lemma FindsLowerCaseVariant(key: string, v: Json)
    requires Usable(v)
    ensures GetExifValue(Some([(ToLower(key), v)]), [key]) == Some(v)
  {
    var exif := [(ToLower(key), v)];
    var cands := CandidateKeys(key);
    assert ToLower(key) in [key, ToLower(key), ToUpper(key), LowerFirst(key), UpperFirst(key)];
    var i :| 0 <= i < |cands| && cands[i] == ToLower(key);
    GetSingle(ToLower(key), v, cands[i]);
    var r := FirstUsable(exif, cands);
    assert r.Some?;
    var j :| 0 <= j < |cands| && Get(exif, cands[j]) == r;
    GetSingle(ToLower(key), v, cands[j]);
    assert ScanKeys(exif, [key]) == r;
  }

  /** A record with a single field holds a value under that key only. */
  lemma GetSingle(k: string, v: Json, c: string)
    ensures Get([(k, v)], c) == if c == k then Some(v) else None
  {
    if c != k {
      assert [(k, v)][1..] == [];
    }
  }

  // ---------------------------------------------------------------------
  // Formatting
  // ---------------------------------------------------------------------

  /** JavaScript falsiness of a JSON value. */
  predicate Falsy(v: Json) {
    v == JNull || v == JBool(false) || v == JNum(0.0) || v == JStr("")
  }

  /** The text branch of `formatAperture`: an "f/" prefix unless present. */
  function ApertureText(s: string): (r: string)
    ensures StartsWith(r, "f/")
    ensures StartsWith(s, "f/") ==> r == s
    ensures !StartsWith(s, "f/") ==> r == "f/" + s
  {
    if StartsWith(s, "f/") then s else "f/" + s
  }

  lemma ApertureTextIdempotent(s: string)
    ensures ApertureText(ApertureText(s)) == ApertureText(s)
  {
  }

  /** A character the regular-expression `.` does not match: the four
      ECMAScript line terminators. */
  predicate IsLineTerminator(c: char) {
    c == '\n' || c == '\r' || c == '\U{2028}' || c == '\U{2029}'
  }

  /** `s.replace(/\\.0$/, '')` as written: the pattern is a literal
      backslash, any one character, then "0" at the end of the text, and a
      match is removed. */
  function ReplaceEscapedZero(s: string): (r: string)
    ensures '\\' !in s ==> r == s
    ensures r == s || (|s| >= 3 && r == s[..|s| - 3] && s[|s| - 3] == '\\' && s[|s| - 1] == '0')
  {
    if |s| >= 3 && s[|s| - 3] == '\\' && !IsLineTerminator(s[|s| - 2]) && s[|s| - 1] == '0'
    then s[..|s| - 3] else s
  }

  /** `formatAperture` on the looked-up value, as written: a number is
      printed by `toFixed(1)` (the `fixed1` parameter) and passed through
      `ReplaceEscapedZero`, which never changes such text, so "5.0" stays;
      anything that does not parse as a number is shown as text. */
  function FormatAperture(value: Option<Json>, parse: Json -> Option<real>, fixed1: real -> string,
                          numText: real -> string): (r: Option<string>)
    ensures r.None? <==> value.None?
    ensures r.Some? ==> StartsWith(r.value, "f/")
    ensures value.Some? && parse(value.value).None? ==> r == Some(ApertureText(ToJsString(value.value, numText)))
    ensures value.Some? && parse(value.value).Some? && '\\' !in fixed1(parse(value.value).value)
            ==> r == Some("f/" + fixed1(parse(value.value).value))
  {
    match value
    case None => None
    case Some(v) =>
      match parse(v)
      case None => Some(ApertureText(ToJsString(v, numText)))
      case Some(n) => Some("f/" + ReplaceEscapedZero(fixed1(n)))
  }

  /** A whole-number aperture keeps its ".0": with `toFixed(1)` giving
      "5.0", the shown text is "f/5.0". */
  lemma ApertureKeepsPointZero(v: Json, parse: Json -> Option<real>, fixed1: real -> string,
                               numText: real -> string)
    requires parse(v) == Some(5.0) && fixed1(5.0) == "5.0"
    ensures FormatAperture(Some(v), parse, fixed1, numText) == Some("f/5.0")
    ensures EndsWith(FormatAperture(Some(v), parse, fixed1, numText).value, ".0")
  {
    assert ReplaceEscapedZero("5.0") == "5.0";
    assert "f/" + "5.0" == "f/5.0";
  }

  /** `replace(/\.0$/, '')`: a trailing ".0" removed. */
  function StripPointZero(s: string): (r: string)
    ensures EndsWith(s, ".0") ==> r + ".0" == s
    ensures !EndsWith(s, ".0") ==> r == s
  {
    if EndsWith(s, ".0") then s[..|s| - 2] else s
  }

  /** `formatAperture` with the pattern meant to drop a trailing ".0". */
  function FormatApertureStripped(value: Option<Json>, parse: Json -> Option<real>, fixed1: real -> string,
                                  numText: real -> string): (r: Option<string>)
    ensures r.None? <==> value.None?
    ensures r.Some? ==> StartsWith(r.value, "f/")
    ensures value.Some? && parse(value.value).None? ==> r == Some(ApertureText(ToJsString(value.value, numText)))
    ensures value.Some? && parse(value.value).Some? ==>
              var t := fixed1(parse(value.value).value);
              (EndsWith(t, ".0") ==> r.value + ".0" == "f/" + t)
              && (!EndsWith(t, ".0") ==> r.value == "f/" + t)
  {
    match value
    case None => None
    case Some(v) =>
      match parse(v)
      case None => Some(ApertureText(ToJsString(v, numText)))
      case Some(n) => Some("f/" + StripPointZero(fixed1(n)))
  }

  /** With the corrected pattern, the whole-number aperture prints as
      "f/5". */
  lemma ApertureStrippedDropsPointZero(v: Json, parse: Json -> Option<real>, fixed1: real -> string,
                                       numText: real -> string)
    requires parse(v) == Some(5.0) && fixed1(5.0) == "5.0"
    ensures FormatApertureStripped(Some(v), parse, fixed1, numText) == Some("f/5")
  {
    assert StripPointZero("5.0") == "5";
    assert "f/" + "5" == "f/5";
  }

  /** The text branch of `formatShutterSpeed`: an "s" suffix unless
      present. */
  function ShutterText(s: string): (r: string)
    ensures EndsWith(r, "s")
    ensures EndsWith(s, "s") ==> r == s
    ensures !EndsWith(s, "s") ==> r == s + "s"
  {
    if EndsWith(s, "s") then s else s + "s"
  }

  lemma ShutterTextIdempotent(s: string)
    ensures ShutterText(ShutterText(s)) == ShutterText(s)
  {
  }

  /** `formatShutterSpeed` on the looked-up value: a falsy value shows
      nothing; a number of at least one second prints as `toFixed(1)`
      seconds, through the same never-matching pattern as the aperture, a
      shorter one as "1/<denominator>" (`denominator` rounds 1/t); other
      values go through the text branch. */
  function FormatShutterSpeed(source: Option<Json>, fixed1: real -> string, denominator: real -> string,
                              numText: real -> string): (r: Option<string>)
    ensures r.None? <==> source.None? || Falsy(source.value)
    ensures r.Some? ==> EndsWith(r.value, "s")
    ensures source.Some? && source.value.JStr? && r.Some? ==> r.value == ShutterText(source.value.s)
    ensures source.Some? && !source.value.JNum? && !source.value.JStr? && r.Some? ==>
              r.value == ShutterText(ToJsString(source.value, numText))
    ensures source.Some? && source.value.JNum? && source.value.n >= 1.0 && '\\' !in fixed1(source.value.n)
            ==> r == Some(fixed1(source.value.n) + "s")
    ensures r.Some? && source.value.JNum? && source.value.n < 1.0
            ==> r.value == ("1/" + denominator(source.value.n) + "s")
  {
    match source
    case None => None
    case Some(v) =>
      if Falsy(v) then None
      else match v
        case JNum(n) => if n >= 1.0 then Some(ReplaceEscapedZero(fixed1(n)) + "s") else Some("1/" + denominator(n) + "s")
        case _ => Some(ShutterText(ToJsString(v, numText)))
  }

  /** Ends in "mm", in any case (`/mm$/i`). */
  predicate EndsWithMm(s: string) {
    |s| >= 2 && LowerChar(s[|s| - 2]) == 'm' && LowerChar(s[|s| - 1]) == 'm'
  }

  /** `formatFocalLength`: nothing for a falsy value other than 0; a text
      already carrying the unit is kept; otherwise a number gets "mm" and
      anything else is shown as text. */
  function FormatFocalLength(source: Option<Json>, parse: Json -> Option<real>, numText: real -> string): (r: Option<string>)
    ensures r.None? <==> source.None? || (Falsy(source.value) && source.value != JNum(0.0))
    ensures r.Some? && EndsWithMm(ToJsString(source.value, numText)) ==> r.value == ToJsString(source.value, numText)
    ensures r.Some? && parse(source.value).Some? ==> EndsWithMm(r.value)
    ensures r.Some? && !EndsWithMm(ToJsString(source.value, numText)) && parse(source.value).Some?
            ==> r.value == numText(parse(source.value).value) + "mm"
    ensures r.Some? && !EndsWithMm(ToJsString(source.value, numText)) && parse(source.value).None?
            ==> r.value == ToJsString(source.value, numText)
  {
    match source
    case None => None
    case Some(v) =>
      if Falsy(v) && v != JNum(0.0) then None
      else
        var text := ToJsString(v, numText);
        if EndsWithMm(text) then Some(text)
        else match parse(v)
          case Some(n) => Some(numText(n) + "mm")
          case None => Some(text)
  }

  /** A focal length written with its unit, in any case, is shown as
      written; a parsed number gains the unit once, after which
      formatting the text again keeps it. */
  lemma FocalLengthUnitIsStable(s: string, v: Json, parse: Json -> Option<real>, numText: real -> string)
    requires EndsWithMm(s)
    requires FormatFocalLength(Some(v), parse, numText).Some? && parse(v).Some?
    ensures FormatFocalLength(Some(JStr(s)), parse, numText) == Some(s)
    ensures var once := FormatFocalLength(Some(v), parse, numText).value;
            FormatFocalLength(Some(JStr(once)), parse, numText) == Some(once)
  {
  }

  /** `toReadableValue`: nothing for null or undefined, arrays joined with
      ", ", anything else as `String(v)`. */
  function ToReadableValue(v: Option<Json>, numText: real -> string): (r: Option<string>)
    ensures r.None? <==> v.None? || v.value.JNull?
    ensures v.Some? && v.value.JArr? ==> r == Some(JoinArray(v.value.items, ", ", numText))
    ensures v.Some? && !v.value.JArr? && !v.value.JNull? ==> r == Some(ToJsString(v.value, numText))
  {
    match v
    case None => None
    case Some(JNull) => None
    case Some(JArr(items)) => Some(JoinArray(items, ", ", numText))
    case Some(x) => Some(ToJsString(x, numText))
  }

  /** Strings show as they are; a one-element array shows its element. */
  lemma ReadableValueExamples(s: string, numText: real -> string)
    ensures ToReadableValue(Some(JStr(s)), numText) == Some(s)
    ensures ToReadableValue(Some(JArr([JStr(s)])), numText) == Some(s)
    ensures ToReadableValue(Some(JArr([JStr(s), JNull])), numText) == Some(s + ", ")
  {
    var items := [JStr(s), JNull];
    assert items[1..] == [JNull];
    assert JoinArray([JNull], ", ", numText) == "";
    assert JoinArray(items, ", ", numText) == s + ", " + "";
    assert s + ", " + "" == s + ", ";
  }

  /** `'★'.repeat(k)`. */
  function Stars(k: nat): (r: string)
    ensures |r| == k && forall i :: 0 <= i < k ==> r[i] == '\U{2605}'
  {
    if k == 0 then "" else "\U{2605}" + Stars(k - 1)
  }

  /** The rating row: a positive numeric rating shows that many stars
      (`repeat` truncates the count). */
  function RatingText(rating: Option<Json>): (r: Option<string>)
    ensures r.Some? <==> rating.Some? && rating.value.JNum? && rating.value.n > 0.0
    ensures r.Some? ==> |r.value| == rating.value.n.Floor
    ensures r.Some? ==> forall i :: 0 <= i < |r.value| ==> r.value[i] == '\U{2605}'
  {
    match rating
    case Some(JNum(n)) => if n > 0.0 then Some(Stars(n.Floor)) else None
    case _ => None
  }

  /** The row is visible (its text is non-empty) exactly for ratings of
      at least one. */
  lemma RatingRowVisible(rating: real)
    ensures Truthy(RatingText(Some(JNum(rating)))) <==> rating >= 1.0
  {
  }

  // ---------------------------------------------------------------------
  // File format
  // ---------------------------------------------------------------------

  /** `source.split(/[?#]/)[0]`: the text before the first '?' or '#'. */
  function CleanPath(s: string): (r: string)
    ensures r <= s && '?' !in r && '#' !in r
    ensures |r| < |s| ==> s[|r|] == '?' || s[|r|] == '#'
  {
    if s == [] || s[0] == '?' || s[0] == '#' then [] else [s[0]] + CleanPath(s[1..])
  }

  /** `getFormatLabel`: the upper-cased extension of the original URL, or
      of the storage key when the URL is empty; nothing when both are
      empty or the path has no '.'. */
  function GetFormatLabel(originalUrl: string, s3Key: string): (r: Option<string>)
    ensures var source := if originalUrl != "" then originalUrl else s3Key;
            r.None? <==> source == "" || '.' !in CleanPath(source)
    ensures r.Some? ==> '.' !in r.value
    ensures var source := if originalUrl != "" then originalUrl else s3Key;
            r.Some? ==> exists ext :: '.' !in ext && r.value == ToUpper(ext) && EndsWith(CleanPath(source), "." + ext)
  {
    var source := if originalUrl != "" then originalUrl else s3Key;
    if source == "" then None
    else
      var path := CleanPath(source);
      if '.' !in path then None
      else
        var ext := AfterLast(path, '.');
        UpperKeepsDots(ext);
        AfterLastIsSuffix(path, '.');
        assert "." + ext == ['.'] + ext;
        Some(ToUpper(ext))
  }

  /** Upper-casing neither adds nor removes a '.'. */
  lemma UpperKeepsDots(s: string)
    ensures '.' in ToUpper(s) <==> '.' in s
  {
    var u := ToUpper(s);
    if '.' in u {
      var i :| 0 <= i < |u| && u[i] == '.';
      assert UpperChar(s[i]) == '.';
    }
    if '.' in s {
      var i :| 0 <= i < |s| && s[i] == '.';
      assert u[i] == '.';
    }
  }

  lemma {:induction false} CleanPathOf(a: string, tail: string)
    requires '?' !in a && '#' !in a
    requires tail == [] || tail[0] == '?' || tail[0] == '#'
    ensures CleanPath(a + tail) == a
  {
    if a != [] {
      assert (a + tail)[1..] == a[1..] + tail;
      CleanPathOf(a[1..], tail);
    } else {
      assert a + tail == tail;
    }
  }

  /** "<stem>.<ext>" followed by a query or fragment cleans to
      "<stem>.<ext>", whose text after the last '.' is the extension. */
  lemma LabelPathOf(stem: string, ext: string, tail: string)
    requires '.' !in ext
    requires '?' !in stem + ext && '#' !in stem + ext
    requires tail == [] || tail[0] == '?' || tail[0] == '#'
    ensures CleanPath(stem + "." + ext + tail) == stem + "." + ext
    ensures '.' in stem + "." + ext && AfterLast(stem + "." + ext, '.') == ext
  {
    var path := stem + "." + ext;
    assert path == stem + ['.'] + ext;
    assert forall c :: c in path ==> c in stem || c == '.' || c in ext;
    CleanPathOf(path, tail);
    assert path[|stem|] == '.';
    AfterLastOfConcat(stem, '.', ext);
  }

  /** The label of an original URL "<stem>.<ext>", followed by a query or
      fragment, is the upper-cased extension, whatever the storage key. */
  lemma FormatLabelOfName(stem: string, ext: string, tail: string, s3Key: string)
    requires '.' !in ext
    requires '?' !in stem + ext && '#' !in stem + ext
    requires tail == [] || tail[0] == '?' || tail[0] == '#'
    ensures GetFormatLabel(stem + "." + ext + tail, s3Key) == Some(ToUpper(ext))
  {
    LabelPathOf(stem, ext, tail);
  }

  /** Without an original URL the storage key is read the same way. */
  lemma FormatLabelOfKey(stem: string, ext: string, tail: string)
    requires '.' !in ext
    requires '?' !in stem + ext && '#' !in stem + ext
    requires tail == [] || tail[0] == '?' || tail[0] == '#'
    ensures GetFormatLabel("", stem + "." + ext + tail) == Some(ToUpper(ext))
  {
    LabelPathOf(stem, ext, tail);
  }

  // ---------------------------------------------------------------------
  // GPS
  // ---------------------------------------------------------------------

  /** The hemisphere letter of a coordinate: the southern or western
      letter when the reference is that letter or its full word ("S" or
      "South", "W" or "West"), the other letter for anything else. */
  function Hemisphere(ref: Option<Json>, letter: char, word: string, otherwise: char): (r: char)
    requires letter != otherwise
    ensures r == letter || r == otherwise
    ensures r == letter <==> ref == Some(JStr([letter])) || ref == Some(JStr(word))
  {
    if ref == Some(JStr([letter])) || ref == Some(JStr(word)) then letter else otherwise
  }

  datatype Gps = Gps(latitude: string, longitude: string, altitude: Option<string>)

  /** The number formatting `convertGPSToDecimal` relies on. */
  datatype GpsFormat = GpsFormat(
    toNumber: Json -> Option<real>,
    parseNumber: Json -> Option<real>,
    fixed5: real -> string,
    altitudeText: (bool, real) -> string)

  /** The EXIF fields `convertGPSToDecimal` reads. */
  datatype GpsFields = GpsFields(
    latitude: Option<Json>, longitude: Option<Json>,
    latitudeRef: Option<Json>, longitudeRef: Option<Json>,
    altitude: Option<Json>, altitudeRef: Option<Json>)

  /** The six GPS tags, each looked up on its own; nothing without EXIF. */
  function ReadGpsFields(exif: Option<Exif>): (r: GpsFields)
    ensures exif.None? ==> r == GpsFields(None, None, None, None, None, None)
  {
    GpsFields(GetExifValue(exif, ["GPSLatitude"]), GetExifValue(exif, ["GPSLongitude"]),
              GetExifValue(exif, ["GPSLatitudeRef"]), GetExifValue(exif, ["GPSLongitudeRef"]),
              GetExifValue(exif, ["GPSAltitude"]), GetExifValue(exif, ["GPSAltitudeRef"]))
  }

  /** A coordinate printed with five decimals, a degree sign and its
      hemisphere letter. */
  function Coordinate(digits: string, hemisphere: char): (r: string)
    ensures r != [] && r[|r| - 1] == hemisphere
  {
    digits + "\U{B0} " + [hemisphere]
  }

  /** `convertGPSToDecimal` over the fields read: nothing unless both
      coordinates are present and convert to finite numbers; each
      coordinate carries its hemisphere letter last; the altitude is
      shown as below sea level only for the ref "Below Sea Level", and is
      absent when it does not parse. */
  function ConvertGps(f: GpsFields, fmt: GpsFormat): (r: Option<Gps>)
    ensures r.Some? <==> f.latitude.Some? && f.longitude.Some?
                         && fmt.toNumber(f.latitude.value).Some? && fmt.toNumber(f.longitude.value).Some?
    ensures r.Some? ==> r.value.latitude != [] && r.value.latitude[|r.value.latitude| - 1] == Hemisphere(f.latitudeRef, 'S', "South", 'N')
    ensures r.Some? ==> r.value.longitude != [] && r.value.longitude[|r.value.longitude| - 1] == Hemisphere(f.longitudeRef, 'W', "West", 'E')
    ensures r.Some? ==> (r.value.altitude.Some? <==> f.altitude.Some? && fmt.parseNumber(f.altitude.value).Some?)
    ensures r.Some? && r.value.altitude.Some? ==>
              r.value.altitude.value == fmt.altitudeText(f.altitudeRef == Some(JStr("Below Sea Level")),
                                                         fmt.parseNumber(f.altitude.value).value)
  {
    if f.latitude.None? || f.longitude.None? then None
    else
      var latitude := fmt.toNumber(f.latitude.value);
      var longitude := fmt.toNumber(f.longitude.value);
      if latitude.None? || longitude.None? then None
      else
        var altNumber := if f.altitude.Some? then fmt.parseNumber(f.altitude.value) else None;
        var altitude := if altNumber.Some?
                        then Some(fmt.altitudeText(f.altitudeRef == Some(JStr("Below Sea Level")), altNumber.value))
                        else None;
        Some(Gps(Coordinate(fmt.fixed5(latitude.value), Hemisphere(f.latitudeRef, 'S', "South", 'N')),
                 Coordinate(fmt.fixed5(longitude.value), Hemisphere(f.longitudeRef, 'W', "West", 'E')),
                 altitude))
  }

  /** When both coordinates convert, each is printed as its number with
      five decimals, a degree sign, a space and its hemisphere letter. */
  lemma ConvertGpsCoordinates(f: GpsFields, fmt: GpsFormat)
    requires f.latitude.Some? && f.longitude.Some?
    requires fmt.toNumber(f.latitude.value).Some? && fmt.toNumber(f.longitude.value).Some?
    ensures ConvertGps(f, fmt).Some?
    ensures ConvertGps(f, fmt).value.latitude
            == fmt.fixed5(fmt.toNumber(f.latitude.value).value) + "\U{B0} " + [Hemisphere(f.latitudeRef, 'S', "South", 'N')]
    ensures ConvertGps(f, fmt).value.longitude
            == fmt.fixed5(fmt.toNumber(f.longitude.value).value) + "\U{B0} " + [Hemisphere(f.longitudeRef, 'W', "West", 'E')]
  {
  }

  /** Without EXIF data there is no location. */
  lemma NoExifNoGps(fmt: GpsFormat)
    ensures ConvertGps(ReadGpsFields(None), fmt).None?
  {
  }

  // ---------------------------------------------------------------------
  // Sections
  // ---------------------------------------------------------------------

  /** A label and the value computed for it; rows with a falsy value are
      dropped. */
  datatype Row = Row(caption: string, value: Option<string>)

  /** The five sections, in the order they are emitted. */
  datatype SectionKind = Basic | Capture | Metadata | Location | Fuji

  function KindOrder(k: SectionKind): nat {
    match k
    case Basic => 0
    case Capture => 1
    case Metadata => 2
    case Location => 3
    case Fuji => 4
  }

  /** The i18n key of a section's title. */
  function TitleKey(k: SectionKind): string {
    "photos.library.exif.sections." +
    match k
    case Basic => "basic"
    case Capture => "capture"
    case Metadata => "metadata"
    case Location => "location"
    case Fuji => "fuji"
  }

  datatype Section = Section(kind: SectionKind, rows: seq<Row>)

  /** `rows.filter(row => row.value)`. */
  function VisibleRows(rows: seq<Row>): (r: seq<Row>)
    ensures IsSubsequence(r, rows)
    ensures forall i :: 0 <= i < |r| ==> r[i] in rows
    ensures forall i :: 0 <= i < |r| ==> Truthy(r[i].value)
    ensures forall i :: 0 <= i < |rows| && Truthy(rows[i].value) ==> rows[i] in r
    ensures forall x :: multiset(r)[x] == if Truthy(x.value) then multiset(rows)[x] else 0
  {
    var visible := (x: Row) => Truthy(x.value);
    FilterMembers(rows, visible);
    FilterCounts(rows, visible);
    Filter(rows, visible)
  }

  /** A section is emitted only when it keeps at least one row. */
  function SectionIf(kind: SectionKind, rows: seq<Row>): (r: seq<Section>)
    ensures |r| <= 1
    ensures r != [] <==> exists i :: 0 <= i < |rows| && Truthy(rows[i].value)
    ensures r != [] ==> r[0] == Section(kind, VisibleRows(rows)) && r[0].rows != []
  {
    var visible := VisibleRows(rows);
    if visible == [] then
      []
    else
      assert Truthy(visible[0].value) && visible[0] in rows;
      [Section(kind, visible)]
  }

  /** The location rows: latitude, longitude, altitude. */
  function LocationRows(gps: Option<Gps>, t: string -> string): (r: seq<Row>)
    ensures |r| == 3
    ensures gps.None? ==> forall i :: 0 <= i < 3 ==> r[i].value.None?
    ensures gps.Some? ==> r[0].value == Some(gps.value.latitude) && r[1].value == Some(gps.value.longitude)
    ensures gps.Some? ==> r[2].value == gps.value.altitude
  {
    [Row(t("photos.library.exif.rows.latitude"), if gps.Some? then Some(gps.value.latitude) else None),
     Row(t("photos.library.exif.rows.longitude"), if gps.Some? then Some(gps.value.longitude) else None),
     Row(t("photos.library.exif.rows.altitude"), if gps.Some? then gps.value.altitude else None)]
  }

  /** The Fuji recipe rows: one per entry of the recipe object, labelled
      by `entryLabel` (the spacing of the camel-case key) and valued by
      `toReadableValue`. Only an object recipe has entries. */
  function FujiRows(recipe: Option<Json>, entryLabel: string -> string, numText: real -> string): (r: Option<seq<Row>>)
    ensures r.Some? <==> recipe.Some? && recipe.value.JObj?
    ensures r.Some? ==> |r.value| == |recipe.value.fields|
    ensures r.Some? ==> forall i :: 0 <= i < |r.value| ==>
              r.value[i] == Row(entryLabel(recipe.value.fields[i].0), ToReadableValue(Some(recipe.value.fields[i].1), numText))
  {
    match recipe
    case Some(JObj(fields)) => Some(seq(|fields|, i requires 0 <= i < |fields| =>
                                  Row(entryLabel(fields[i].0), ToReadableValue(Some(fields[i].1), numText))))
    case _ => None
  }

  /** The candidate rows of each section before the truthiness filter;
      without a Fuji recipe there are none. */
  function InputRows(kind: SectionKind, basic: seq<Row>, capture: seq<Row>, metadata: seq<Row>, gps: Option<Gps>,
                     fuji: Option<seq<Row>>, t: string -> string): seq<Row>
  {
    match kind
    case Basic => basic
    case Capture => capture
    case Metadata => metadata
    case Location => LocationRows(gps, t)
    case Fuji => if fuji.Some? then fuji.value else []
  }

  predicate HasVisible(rows: seq<Row>) {
    exists i :: 0 <= i < |rows| && Truthy(rows[i].value)
  }

  /** `buildSections`, given the rows of the basic, capture and metadata
      sections, the GPS reading and the Fuji rows. */
  function BuildSections(basic: seq<Row>, capture: seq<Row>, metadata: seq<Row>, gps: Option<Gps>,
                         fuji: Option<seq<Row>>, t: string -> string): (r: seq<Section>)
    ensures forall i, j :: 0 <= i < j < |r| ==> KindOrder(r[i].kind) < KindOrder(r[j].kind)
    ensures forall i :: 0 <= i < |r| ==> r[i].rows != [] && forall k :: 0 <= k < |r[i].rows| ==> Truthy(r[i].rows[k].value)
  {
    var s1 := SectionIf(Basic, basic);
    var s2 := SectionIf(Capture, capture);
    var s3 := SectionIf(Metadata, metadata);
    var s4 := SectionIf(Location, LocationRows(gps, t));
    var s5 := if fuji.Some? then SectionIf(Fuji, fuji.value) else [];
    SectionIfKeepsKind(Basic, basic);
    SectionIfKeepsKind(Capture, capture);
    SectionIfKeepsKind(Metadata, metadata);
    SectionIfKeepsKind(Location, LocationRows(gps, t));
    FujiSectionKeepsKind(fuji);
    SectionsInOrder(s1, s2, s3, s4, s5);
    s1 + s2 + s3 + s4 + s5
  }

  /** Each kind's section is there exactly when that kind has a truthy
      candidate row, and it holds the truthy candidate rows. */
  lemma BuildSectionsByKind(kind: SectionKind, basic: seq<Row>, capture: seq<Row>, metadata: seq<Row>,
                            gps: Option<Gps>, fuji: Option<seq<Row>>, t: string -> string)
    ensures var r := BuildSections(basic, capture, metadata, gps, fuji, t);
            var rows := InputRows(kind, basic, capture, metadata, gps, fuji, t);
            && ((exists i :: 0 <= i < |r| && r[i].kind == kind) <==> HasVisible(rows))
            && (forall i :: 0 <= i < |r| && r[i].kind == kind ==> r[i].rows == VisibleRows(rows))
  {
    var s1 := SectionIf(Basic, basic);
    var s2 := SectionIf(Capture, capture);
    var s3 := SectionIf(Metadata, metadata);
    var s4 := SectionIf(Location, LocationRows(gps, t));
    var s5 := if fuji.Some? then SectionIf(Fuji, fuji.value) else [];
    assert BuildSections(basic, capture, metadata, gps, fuji, t) == s1 + s2 + s3 + s4 + s5;
    var rows := InputRows(kind, basic, capture, metadata, gps, fuji, t);
    assert Among(kind, s1, s2, s3, s4, s5) == SectionIf(kind, rows) by {
      if kind == Fuji && fuji.None? {
        assert SectionIf(Fuji, []) == [];
      }
    }
    OfKindIf(Basic, basic);
    OfKindIf(Capture, capture);
    OfKindIf(Metadata, metadata);
    OfKindIf(Location, LocationRows(gps, t));
    if fuji.Some? {
      OfKindIf(Fuji, fuji.value);
    }
    SectionOfKind(kind, rows, s1, s2, s3, s4, s5);
  }

  /** `PieceOfKind` when the piece of `kind` is `SectionIf` over `rows`. */
  lemma SectionOfKind(kind: SectionKind, rows: seq<Row>, s1: seq<Section>, s2: seq<Section>, s3: seq<Section>,
                      s4: seq<Section>, s5: seq<Section>)
    requires OfKind(s1, Basic) && OfKind(s2, Capture) && OfKind(s3, Metadata)
    requires OfKind(s4, Location) && OfKind(s5, Fuji)
    requires Among(kind, s1, s2, s3, s4, s5) == SectionIf(kind, rows)
    ensures var r := s1 + s2 + s3 + s4 + s5;
            && ((exists i :: 0 <= i < |r| && r[i].kind == kind) <==> HasVisible(rows))
            && (forall i :: 0 <= i < |r| && r[i].kind == kind ==> r[i].rows == VisibleRows(rows))
  {
    PieceOfKind(kind, s1, s2, s3, s4, s5);
  }

  predicate OfKind(s: seq<Section>, kind: SectionKind) {
    |s| <= 1 && forall i :: 0 <= i < |s| ==> s[i].kind == kind
  }

  lemma OfKindIf(kind: SectionKind, rows: seq<Row>)
    ensures OfKind(SectionIf(kind, rows), kind)
  {
  }

  /** The piece of five per-kind pieces that holds `kind`. */
  function Among(kind: SectionKind, s1: seq<Section>, s2: seq<Section>, s3: seq<Section>, s4: seq<Section>,
                 s5: seq<Section>): seq<Section>
  {
    match kind
    case Basic => s1
    case Capture => s2
    case Metadata => s3
    case Location => s4
    case Fuji => s5
  }

  /** In the concatenation of five per-kind pieces, a kind occurs exactly
      when its piece is non-empty, and only as that piece's section. */
  lemma PieceOfKind(kind: SectionKind, s1: seq<Section>, s2: seq<Section>, s3: seq<Section>, s4: seq<Section>,
                    s5: seq<Section>)
    requires OfKind(s1, Basic) && OfKind(s2, Capture) && OfKind(s3, Metadata)
    requires OfKind(s4, Location) && OfKind(s5, Fuji)
    ensures var r := s1 + s2 + s3 + s4 + s5;
            var s := Among(kind, s1, s2, s3, s4, s5);
            && ((exists i :: 0 <= i < |r| && r[i].kind == kind) <==> s != [])
            && (forall i :: 0 <= i < |r| && r[i].kind == kind ==> s != [] && r[i] == s[0])
  {
    var r := s1 + s2 + s3 + s4 + s5;
    var s := Among(kind, s1, s2, s3, s4, s5);
    var b1 := |s1|;
    var b2 := b1 + |s2|;
    var b3 := b2 + |s3|;
    var b4 := b3 + |s4|;
    forall k | 0 <= k < |r| && r[k].kind == kind
      ensures s != [] && r[k] == s[0]
    {
      if k < b1 { assert r[k] == s1[k]; }
      else if k < b2 { assert r[k] == s2[k - b1]; }
      else if k < b3 { assert r[k] == s3[k - b2]; }
      else if k < b4 { assert r[k] == s4[k - b3]; }
      else { assert r[k] == s5[k - b4]; }
    }
    if s != [] {
      match kind
      case Basic => assert r[0] == s1[0];
      case Capture => assert r[b1] == s2[0];
      case Metadata => assert r[b2] == s3[0];
      case Location => assert r[b3] == s4[0];
      case Fuji => assert r[b4] == s5[0];
    }
  }

  lemma FujiSectionKeepsKind(fuji: Option<seq<Row>>)
    ensures fuji.Some? ==> SectionsOf(SectionIf(Fuji, fuji.value), Fuji)
  {
    if fuji.Some? {
      SectionIfKeepsKind(Fuji, fuji.value);
    }
  }

  lemma SectionIfKeepsKind(kind: SectionKind, rows: seq<Row>)
    ensures SectionsOf(SectionIf(kind, rows), kind)
  {
    var r := SectionIf(kind, rows);
    if r != [] {
      assert r[0] == Section(kind, VisibleRows(rows));
    }
  }

  predicate SectionsOf(s: seq<Section>, kind: SectionKind) {
    |s| <= 1 && forall i :: 0 <= i < |s| ==> s[i].kind == kind && s[i].rows != []
                                              && forall k :: 0 <= k < |s[i].rows| ==> Truthy(s[i].rows[k].value)
  }

  lemma SectionsInOrder(s1: seq<Section>, s2: seq<Section>, s3: seq<Section>, s4: seq<Section>, s5: seq<Section>)
    requires SectionsOf(s1, Basic) && SectionsOf(s2, Capture) && SectionsOf(s3, Metadata)
    requires SectionsOf(s4, Location) && SectionsOf(s5, Fuji)
    ensures var r := s1 + s2 + s3 + s4 + s5;
            && (forall i, j :: 0 <= i < j < |r| ==> KindOrder(r[i].kind) < KindOrder(r[j].kind))
            && (forall i :: 0 <= i < |r| ==> r[i].rows != [] && forall k :: 0 <= k < |r[i].rows| ==> Truthy(r[i].rows[k].value))
            && (forall k :: 0 <= k < |r| ==> r[k] in s1 || r[k] in s2 || r[k] in s3 || r[k] in s4 || r[k] in s5)
  {
    var r := s1 + s2 + s3 + s4 + s5;
    var b1 := |s1|;
    var b2 := b1 + |s2|;
    var b3 := b2 + |s3|;
    var b4 := b3 + |s4|;
    forall k | 0 <= k < |r|
      ensures KindOrder(r[k].kind) == (if k < b1 then 0 else if k < b2 then 1 else if k < b3 then 2 else if k < b4 then 3 else 4)
      ensures r[k] in s1 || r[k] in s2 || r[k] in s3 || r[k] in s4 || r[k] in s5
    {
      if k < b1 { assert r[k] == s1[k]; }
      else if k < b2 { assert r[k] == s2[k - b1]; }
      else if k < b3 { assert r[k] == s3[k - b2]; }
      else if k < b4 { assert r[k] == s4[k - b3]; }
      else { assert r[k] == s5[k - b4]; }
    }
  }

  /** The location section appears exactly when a GPS reading exists. */
  lemma LocationSection(basic: seq<Row>, capture: seq<Row>, metadata: seq<Row>, gps: Option<Gps>,
                        fuji: Option<seq<Row>>, t: string -> string)
    requires gps.Some? ==> gps.value.latitude != ""
    ensures var r := BuildSections(basic, capture, metadata, gps, fuji, t);
            (exists i :: 0 <= i < |r| && r[i].kind == Location) <==> gps.Some?
  {
    var s1 := SectionIf(Basic, basic);
    var s2 := SectionIf(Capture, capture);
    var s3 := SectionIf(Metadata, metadata);
    var rows := LocationRows(gps, t);
    var s4 := SectionIf(Location, rows);
    var s5 := if fuji.Some? then SectionIf(Fuji, fuji.value) else [];
    assert BuildSections(basic, capture, metadata, gps, fuji, t) == s1 + s2 + s3 + s4 + s5;
    if gps.Some? {
      assert Truthy(rows[0].value);
      KindPresent(s1, s2, s3, s4, s5);
    } else {
      SectionIfKeepsKind(Basic, basic);
      SectionIfKeepsKind(Capture, capture);
      SectionIfKeepsKind(Metadata, metadata);
      FujiSectionKeepsKind(fuji);
      KindAbsent(s1, s2, s3, s4, s5);
    }
  }

  lemma KindPresent(s1: seq<Section>, s2: seq<Section>, s3: seq<Section>, s4: seq<Section>, s5: seq<Section>)
    requires s4 != []
    ensures var r := s1 + s2 + s3 + s4 + s5;
            exists i :: 0 <= i < |r| && r[i].kind == s4[0].kind
  {
    var r := s1 + s2 + s3 + s4 + s5;
    var k := |s1| + |s2| + |s3|;
    assert r[k] == s4[0];
  }

  lemma KindAbsent(s1: seq<Section>, s2: seq<Section>, s3: seq<Section>, s4: seq<Section>, s5: seq<Section>)
    requires SectionsOf(s1, Basic) && SectionsOf(s2, Capture) && SectionsOf(s3, Metadata) && SectionsOf(s5, Fuji)
    requires s4 == []
    ensures var r := s1 + s2 + s3 + s4 + s5;
            forall i :: 0 <= i < |r| ==> r[i].kind != Location
  {
    SectionsInOrder(s1, s2, s3, s4, s5);
  }

  /** The Fuji section appears only for a recipe. */
  lemma FujiSectionNeedsRecipe(basic: seq<Row>, capture: seq<Row>, metadata: seq<Row>, gps: Option<Gps>,
                               t: string -> string)
    ensures var r := BuildSections(basic, capture, metadata, gps, None, t);
            forall i :: 0 <= i < |r| ==> r[i].kind != Fuji
  {
    var s1 := SectionIf(Basic, basic);
    var s2 := SectionIf(Capture, capture);
    var s3 := SectionIf(Metadata, metadata);
    var s4 := SectionIf(Location, LocationRows(gps, t));
    assert BuildSections(basic, capture, metadata, gps, None, t) == s1 + s2 + s3 + s4 + [];
    SectionIfKeepsKind(Basic, basic);
    SectionIfKeepsKind(Capture, capture);
    SectionIfKeepsKind(Metadata, metadata);
    SectionIfKeepsKind(Location, LocationRows(gps, t));
    SectionsInOrder(s1, s2, s3, s4, []);
  }
}
