/**
 * The structural check a scenario file must pass before it is copied
 * (`is_valid_json_structure`). The check runs early-return tests in order; the
 * model keeps that order because it decides whether a malformed document is
 * rejected or makes the check raise an uncaught TypeError. Line numbers in this
 * module refer to data_utils/post_processing.py.
 */
module Validator {
  import opened Options
  import opened JsonValues

  /** The keys every scenario document must have at its top level, in the order they are tested. */
  const RequiredKeys: seq<string> := ["name", "objects", "roads", "tl_states"]

  /**
   * What the check does with a file: returns True, returns False, or lets a
   * TypeError or RecursionError escape (the handler catches only decoding, value
   * and I/O errors).
   */
  datatype Verdict = Valid | Invalid | Raises

  /** Values Python can iterate over or test with `in`: lists, dicts and strings. */
  predicate Iterable(v: Json) {
    v.JArr? || v.JObj? || v.JStr?
  }

  /**
   * Python's `key in data`: dictionary membership for a dict, element equality for
   * a list, substring search for a string; None when it raises a TypeError.
   */
  function HasKey(data: Json, key: string): (r: Option<bool>)
    ensures r.None? <==> !Iterable(data)
  {
    match data
    case JObj(fields) => Some(key in fields)
    case JArr(items) => Some(JStr(key) in items)
    case JStr(s) => Some(IsSubstring(key, s))
    case _ => None
  }

  /** `all(key in data for key in keys)`, which stops at the first missing key. */
  function AllKeysPresent(data: Json, keys: seq<string>): (r: Option<bool>)
    ensures r.None? <==> keys != [] && !Iterable(data)
    ensures r == Some(true) <==> forall i :: 0 <= i < |keys| ==> HasKey(data, keys[i]) == Some(true)
  {
    if keys == [] then Some(true)
    else match HasKey(data, keys[0])
      case None => None
      case Some(false) => Some(false)
      case Some(true) => AllKeysPresent(data, keys[1..])
  }

  /** An element of `objects` must be a dict with `position` and `type`. */
  predicate IsObjectEntry(o: Json) {
    o.JObj? && "position" in o.fields && "type" in o.fields
  }

  /** An element of `roads` must be a dict with `geometry`. */
  predicate IsRoadEntry(r: Json) {
    r.JObj? && "geometry" in r.fields
  }

  /** An element of a road's geometry must be a dict with `x` and `y`. */
  predicate IsPoint(g: Json) {
    g.JObj? && "x" in g.fields && "y" in g.fields
  }

  /** `objects` is a list whose every element is an object entry (an empty list passes). */
  predicate ObjectsOk(v: Json) {
    v.JArr? && forall i :: 0 <= i < |v.items| ==> IsObjectEntry(v.items[i])
  }

  /** `roads` is a list whose every element is a road entry. */
  predicate RoadsOk(v: Json) {
    v.JArr? && forall i :: 0 <= i < |v.items| ==> IsRoadEntry(v.items[i])
  }

  /** `road.get("geometry", [])` on a dict. */
  function GeometryOf(road: Json): Json
    requires road.JObj?
  {
    if "geometry" in road.fields then road.fields["geometry"] else JArr([])
  }

  /**
   * `all(isinstance(geo, dict) and "x" in geo and "y" in geo for geo in g)`:
   * a list is tested element by element; iterating a string yields characters and
   * iterating a dict yields its keys, never dicts, so those pass only when empty;
   * None when `g` cannot be iterated (null, a boolean, a number).
   */
  function GeometryCheck(g: Json): (r: Option<bool>)
    ensures r.None? <==> !Iterable(g)
    ensures r == Some(true) <==> GeometryAccepted(g)
  {
    match g
    case JArr(items) => Some(forall i :: 0 <= i < |items| ==> IsPoint(items[i]))
    case JObj(fields) => Some(fields.Keys == {})
    case JStr(s) => Some(s == [])
    case _ => None
  }

  /** The geometries that let the loop go on to the next road. */
  predicate GeometryAccepted(g: Json) {
    || (g.JArr? && forall i :: 0 <= i < |g.items| ==> IsPoint(g.items[i]))
    || g == JStr([])
    || g == JObj(map[])
  }

  /** The loop over `roads` of lines 33-38: the first road whose geometry fails decides. */
  function ScanGeometry(roads: seq<Json>): (v: Verdict)
    requires forall i :: 0 <= i < |roads| ==> roads[i].JObj?
    ensures v == Valid <==> forall i :: 0 <= i < |roads| ==> GeometryAccepted(GeometryOf(roads[i]))
    ensures v == Raises <==>
      exists i :: 0 <= i < |roads| && !Iterable(GeometryOf(roads[i])) &&
        forall j :: 0 <= j < i ==> GeometryAccepted(GeometryOf(roads[j]))
  {
    if roads == [] then Valid
    else
      var rest := ScanGeometry(roads[1..]);
      assert forall i :: 1 <= i < |roads| ==> roads[1..][i - 1] == roads[i];
      match GeometryCheck(GeometryOf(roads[0]))
      case Some(true) =>
        assert forall i :: 0 <= i < |roads| - 1 ==> roads[1..][i] == roads[i + 1];
        rest
      case Some(false) => Invalid
      case None => Raises
  }

  /**
   * The whole check on an opened file. A parse or read failure is caught and
   * gives Invalid; a RecursionError from the decoder escapes. A top level that is not a dict raises at line 15 when it cannot
   * be searched, and at line 19 when the key test happens to pass on a list or a
   * string (indexing those by a string raises).
   */
  function Check(p: Parsed): (v: Verdict)
    ensures p.Unreadable? ==> v == Invalid
    ensures p.TooDeep? ==> v == Raises
  {
    match p
    case Unreadable => Invalid
    case TooDeep => Raises
    case Doc(data) =>
      match AllKeysPresent(data, RequiredKeys)
      case None => Raises
      case Some(false) => Invalid
      case Some(true) =>
        if !data.JObj? then Raises
        else
          assert HasKey(data, RequiredKeys[1]) == Some(true) && HasKey(data, RequiredKeys[2]) == Some(true);
          var m := data.fields;
          if !ObjectsOk(m["objects"]) then Invalid
          else if !RoadsOk(m["roads"]) then Invalid
          else ScanGeometry(m["roads"].items)
  }

  /** The four required keys are all present. */
  predicate HasRequiredKeys(m: map<string, Json>) {
    "name" in m && "objects" in m && "roads" in m && "tl_states" in m
  }

  /** A document the check accepts, stated declaratively. */
  ghost predicate WellFormed(d: Json) {
    && d.JObj?
    && HasRequiredKeys(d.fields)
    && ObjectsOk(d.fields["objects"])
    && RoadsOk(d.fields["roads"])
    && forall i :: 0 <= i < |d.fields["roads"].items| ==>
         GeometryAccepted(d.fields["roads"].items[i].fields["geometry"])
  }

  /** A document on which the check raises, stated declaratively. */
  ghost predicate RaisingShape(d: Json) {
    || d.JNull? || d.JBool? || d.JNum?
    || (d.JStr? && forall i :: 0 <= i < |RequiredKeys| ==> IsSubstring(RequiredKeys[i], d.s))
    || (d.JArr? && forall i :: 0 <= i < |RequiredKeys| ==> JStr(RequiredKeys[i]) in d.items)
    || (&& d.JObj?
        && HasRequiredKeys(d.fields)
        && ObjectsOk(d.fields["objects"])
        && RoadsOk(d.fields["roads"])
        && exists i :: 0 <= i < |d.fields["roads"].items| &&
             !Iterable(d.fields["roads"].items[i].fields["geometry"]) &&
             forall j :: 0 <= j < i ==> GeometryAccepted(d.fields["roads"].items[j].fields["geometry"]))
  }

  /** A file is accepted exactly when it parses to a well-formed document. */
  lemma CheckValidIff(p: Parsed)
    ensures Check(p) == Valid <==> p.Doc? && WellFormed(p.value)
  {
    if p.Doc? && p.value.JObj? {
      var d := p.value;
      assert AllKeysPresent(d, RequiredKeys) == Some(true) <==> HasRequiredKeys(d.fields) by {
        assert HasKey(d, RequiredKeys[0]) == Some("name" in d.fields);
        assert HasKey(d, RequiredKeys[1]) == Some("objects" in d.fields);
        assert HasKey(d, RequiredKeys[2]) == Some("roads" in d.fields);
        assert HasKey(d, RequiredKeys[3]) == Some("tl_states" in d.fields);
      }
      if HasRequiredKeys(d.fields) && ObjectsOk(d.fields["objects"]) && RoadsOk(d.fields["roads"]) {
        var roads := d.fields["roads"].items;
        assert forall i :: 0 <= i < |roads| ==> GeometryOf(roads[i]) == roads[i].fields["geometry"];
      }
    }
  }

  /**
   * The check raises exactly on a too deeply nested file and on the shapes listed
   * in `RaisingShape`; on everything else it returns.
   */
  lemma CheckRaisesIff(p: Parsed)
    ensures Check(p) == Raises <==> p.TooDeep? || (p.Doc? && RaisingShape(p.value))
  {
    if p.Doc? && p.value.JObj? {
      var d := p.value;
      assert AllKeysPresent(d, RequiredKeys) == Some(true) <==> HasRequiredKeys(d.fields) by {
        assert HasKey(d, RequiredKeys[0]) == Some("name" in d.fields);
        assert HasKey(d, RequiredKeys[1]) == Some("objects" in d.fields);
        assert HasKey(d, RequiredKeys[2]) == Some("roads" in d.fields);
        assert HasKey(d, RequiredKeys[3]) == Some("tl_states" in d.fields);
      }
      if HasRequiredKeys(d.fields) && ObjectsOk(d.fields["objects"]) && RoadsOk(d.fields["roads"]) {
        var roads := d.fields["roads"].items;
        assert forall i :: 0 <= i < |roads| ==> GeometryOf(roads[i]) == roads[i].fields["geometry"];
      }
    }
  }

  /**
   * Only the presence of `name` and `tl_states` and the contents of `objects` and
   * `roads` matter: setting any other key, or replacing the value of a key that is
   * already there other than those two, leaves the verdict unchanged.
   */
  lemma ExtraKeysIgnored(m: map<string, Json>, k: string, v: Json)
    requires k != "objects" && k != "roads"
    requires k in m || k !in RequiredKeys
    ensures Check(Doc(JObj(m[k := v]))) == Check(Doc(JObj(m)))
  {
    var m' := m[k := v];
    forall i | 0 <= i < |RequiredKeys|
      ensures HasKey(JObj(m'), RequiredKeys[i]) == HasKey(JObj(m), RequiredKeys[i])
    {
    }
  }

  /** The smallest accepted document: the four keys, no objects, no roads. */
  lemma MinimalDocumentValid(name: Json, tl: Json)
    ensures Check(Doc(JObj(map["name" := name, "objects" := JArr([]), "roads" := JArr([]), "tl_states" := tl]))) == Valid
  {
    var d := JObj(map["name" := name, "objects" := JArr([]), "roads" := JArr([]), "tl_states" := tl]);
    CheckValidIff(Doc(d));
  }

  /**
   * Roads are tested in order: a road whose geometry is a non-empty string stops
   * the loop with False before a later road with a null geometry can raise, and in
   * the other order the check raises.
   */
  lemma RoadOrderDecides(name: Json, tl: Json)
    ensures
      var bad := JObj(map["geometry" := JStr("xy")]);
      var boom := JObj(map["geometry" := JNull]);
      var doc := (roads: seq<Json>) => Doc(JObj(map["name" := name, "objects" := JArr([]), "roads" := JArr(roads), "tl_states" := tl]));
      Check(doc([bad, boom])) == Invalid && Check(doc([boom, bad])) == Raises
  {
  }
}
