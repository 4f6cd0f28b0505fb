/** The unit edit form: filling it from a unit (`formFromUnit` in map.js)
    and writing it back (`saveEditForm`). */
module EditForm {
  import opened JsValues
  import opened Opt
  import opened Text
  import opened Sidc

  /** The form's fields. `aff` and `subtype` are always strings (defaults,
      substrings of the type, or text inputs). */
  datatype Form = Form(
    callsign: JsValue, category: JsValue, unitType: JsValue, subtype: string,
    aff: string, text: JsValue, send: JsValue, rootSidc: Option<TypeNode>)

  /** The form shown when no unit is selected. */
  const EmptyForm := Form(Str(""), Str(""), Str(""), "", "", Str(""), Bool(false), None)

  /** The form before any unit was ever selected (`{}`): every field reads
      as undefined (`aff` and `subtype` are only read for a "unit"). */
  const UnsetForm := Form(Undefined, Undefined, Undefined, "", "", Undefined, Undefined, None)

  /** `s.substring(from, to)`: both ends are clamped to the string's length
      and swapped when out of order. */
  function Substring(s: string, from: nat, to: nat): (r: string)
    ensures from <= to <= |s| ==> r == s[from..to]
    ensures |s| <= from && |s| <= to ==> r == ""
  {
    var a := if from <= |s| then from else |s|;
    var b := if to <= |s| then to else |s|;
    if a <= b then s[a..b] else s[b..a]
  }

  /** The form filled from a record before its type is inspected. */
  function BaseForm(r: Record, types: Option<TypeNode>): Form {
    Form(Get(r, "callsign"), Get(r, "category"), Get(r, "type"), "G", "h", Get(r, "text"), Get(r, "send"), types)
  }

  const PointFormType := "b-m-p-s-m"

  /** `formFromUnit` on a unit: an atom type `a-<aff>-<subtype>` is split into
      the affiliation and the subtype, and the root of the subtype in the type
      tree is looked up. A type that is not a string throws (the base form has
      then already been stored). */
  function FormFromRecord(r: Record, types: Option<TypeNode>): (o: Outcome<Form>)
    ensures o.Returned? <==> Get(r, "type").Str?
    ensures o.Returned? ==>
      o.value.callsign == Get(r, "callsign") && o.value.category == Get(r, "category")
      && o.value.text == Get(r, "text") && o.value.send == Get(r, "send")
  {
    match Get(r, "type")
    case Str(t) =>
      if StartsWith(t, "a-") then
        var sub := Substring(t, 4, |t|);
        Returned(BaseForm(r, types).(unitType := Str(PointFormType), aff := Substring(t, 2, 3),
                                     subtype := sub, rootSidc := RootSidcOf(types, sub)))
      else Returned(BaseForm(r, types))
    case _ => Threw("u.unit.type.startsWith is not a function")
  }

  /** The form `formFromUnit` leaves behind for a unit: when reading the type
      throws, the base form it had already stored. */
  function FormShown(r: Record, types: Option<TypeNode>): (f: Form)
    ensures f.callsign == Get(r, "callsign") && f.text == Get(r, "text") && f.send == Get(r, "send")
  {
    match FormFromRecord(r, types)
    case Returned(f) => f
    case Threw(_) => BaseForm(r, types)
  }

  /** The record fields `saveEditForm` writes. */
  const EditedKeys: set<string> := {"callsign", "category", "send", "text", "type", "sidc"}

  /** `saveEditForm` on the current unit's record: copies the edited fields;
      a "unit" gets its type rebuilt as `a-<aff>-<subtype>` and the matching
      SIDC, anything else takes the form's type and an empty SIDC. */
  function SavedFields(r: Record, f: Form): (s: Record)
    ensures s.Keys == r.Keys + EditedKeys
    ensures forall k :: k !in EditedKeys ==> Get(s, k) == Get(r, k)
    ensures Get(s, "callsign") == f.callsign && Get(s, "category") == f.category
      && Get(s, "send") == f.send && Get(s, "text") == f.text
    ensures f.category == Str("unit") ==> Get(s, "type") == Str("a-" + f.aff + "-" + f.subtype)
    ensures f.category == Str("unit") ==>
      Get(s, "type").Str? && StartsWith(Get(s, "type").s, "a-") && Get(s, "sidc") == Str(SidcOf(Get(s, "type").s))
    ensures f.category != Str("unit") ==> Get(s, "type") == f.unitType && Get(s, "sidc") == Str("")
  {
    var unit := f.category == Str("unit");
    var t := Join(["a", f.aff, f.subtype], '-');
    JoinThree("a", f.aff, f.subtype);
    assert t[..2] == "a-";
    r["callsign" := f.callsign]["category" := f.category]["send" := f.send]["text" := f.text]
     ["type" := if unit then Str(t) else f.unitType]
     ["sidc" := if unit then Str(SidcOf(t)) else Str("")]
  }

  /** Editing a "unit" whose type is `a-<c>-<rest>` without changing the form
      gives the type back unchanged: only the SIDC is recomputed. */
  lemma AtomTypeRoundTrip(r: Record, types: Option<TypeNode>, c: char, rest: string)
    requires Get(r, "type") == Str("a-" + [c] + "-" + rest) && Get(r, "category") == Str("unit")
    ensures FormFromRecord(r, types).Returned?
    ensures var s := SavedFields(r, FormFromRecord(r, types).value);
      && (forall k :: k != "sidc" ==> Get(s, k) == Get(r, k))
      && Get(s, "sidc") == Str(SidcOf("a-" + [c] + "-" + rest))
  {
    var t := "a-" + [c] + "-" + rest;
    assert t[..2] == "a-";
    assert t[2..3] == [c];
    assert t[4..] == rest;
    var f := FormFromRecord(r, types).value;
    assert f.aff == [c] && f.subtype == rest;
    JoinThree("a", f.aff, f.subtype);
  }

  lemma JoinThree(a: string, b: string, c: string)
    ensures Join([a, b, c], '-') == a + "-" + b + "-" + c
  {
    assert [a, b, c][1..] == [b, c];
    assert [b, c][1..] == [c];
    assert Join([c], '-') == c;
    assert Join([b, c], '-') == b + ['-'] + c;
    assert Join([a, b, c], '-') == a + ['-'] + (b + ['-'] + c);
  }

  /** A point whose type is not an atom type and whose category is not
      "unit" keeps its type; its SIDC is cleared. */
  lemma OtherTypeRoundTrip(r: Record, types: Option<TypeNode>, t: string)
    requires Get(r, "type") == Str(t) && !StartsWith(t, "a-") && Get(r, "category") != Str("unit")
    ensures FormFromRecord(r, types).Returned?
    ensures var s := SavedFields(r, FormFromRecord(r, types).value);
      && (forall k :: k != "sidc" ==> Get(s, k) == Get(r, k))
      && Get(s, "sidc") == Str("")
  {
  }

  /** An atom type on a record whose category is not "unit" is replaced by the
      generic point type on saving. */
  lemma AtomTypeOutsideUnitReplaced(r: Record, types: Option<TypeNode>, t: string)
    requires Get(r, "type") == Str(t) && StartsWith(t, "a-") && Get(r, "category") != Str("unit")
    ensures FormFromRecord(r, types).Returned?
    ensures Get(SavedFields(r, FormFromRecord(r, types).value), "type") == Str(PointFormType)
  {
  }
}
