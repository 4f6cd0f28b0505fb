/** The client's unit store (the Vue app's `unitsMap` and the `Unit` class
    in map.js): snapshot and push reconciliation, removal, the current unit
    and its edit form, the multi-selection, and the polling fallback. */
module UnitStore {
  import opened JsValues
  import opened Opt
  import opened Sidc
  import opened UnitRecord
  import opened EditForm

  /** A stored unit: the record it wraps (the very object first received
      for its uid), the uid captured at construction, and the marker state.
      `marker` says whether a map marker is held. */
  class Unit {
    const unit: JsObject
    const uid: JsValue
    var redraw: bool
    var marker: bool

    /** `new Unit(app, u)`: wraps `u` itself and places its marker. */
    constructor (u: JsObject)
      ensures unit == u && uid == Get(u.fields, "uid")
      ensures marker == HasCoords(u.fields) && !redraw
    {
      unit := u;
      uid := Get(u.fields, "uid");
      redraw := false;
      marker := false;
      new;
      UpdateMarker();
    }

    /** `removeMarker`. */
    method RemoveMarker()
      modifies this`marker
      ensures !marker && redraw == old(redraw)
    {
      marker := false;
    }

    /** `updateMarker`: without coordinates the marker is dropped and `redraw`
      is left as it was; otherwise a marker is held and `redraw` is reset. */
    method UpdateMarker()
      modifies this`marker, this`redraw
      ensures marker == HasCoords(unit.fields)
      ensures redraw == (old(redraw) && !HasCoords(unit.fields))
    {
      if !HasCoords(unit.fields) {
        RemoveMarker();
        return;
      }
      marker := true;
      redraw := false;
    }

    /** `Unit.update`: refuses a record with another uid, decides `redraw`,
      copies every key of `u` into the stored record (keys `u` lacks keep
      their values), then updates the marker. */
    method Update(u: JsObject) returns (o: Outcome<Unit>)
      modifies this`redraw, this`marker, unit`fields
      ensures u.fields == old(u.fields)
      ensures Get(old(unit.fields), "uid") != old(Get(u.fields, "uid")) ==>
        o == Threw("wrong uid") && unchanged(this, unit)
      ensures (Get(old(unit.fields), "uid") == old(Get(u.fields, "uid")) &&
               NeedsRedraw(old(unit.fields), old(u.fields)).Threw?) ==>
        o.Threw? && unchanged(this, unit)
      ensures (Get(old(unit.fields), "uid") == old(Get(u.fields, "uid")) &&
               NeedsRedraw(old(unit.fields), old(u.fields)).Returned?) ==>
          && o == Returned(this)
          && unit.fields == old(unit.fields) + old(u.fields)
          && marker == HasCoords(unit.fields)
          && redraw == (NeedsRedraw(old(unit.fields), old(u.fields)).value && !HasCoords(unit.fields))
    {
      if Get(unit.fields, "uid") != Get(u.fields, "uid") {
        return Threw("wrong uid");
      }
      var needs := NeedsRedraw(unit.fields, u.fields);
      if needs.Threw? {
        return Threw(needs.reason);
      }
      redraw := needs.value;
      var incoming := u.fields;
      ghost var base := unit.fields;
      var todo := incoming.Keys;
      while todo != {}
        invariant todo <= incoming.Keys
        invariant unit.fields == base + map k | k in incoming.Keys - todo :: incoming[k]
        invariant redraw == needs.value
        decreases todo
      {
        var k :| k in todo;
        unit.fields := unit.fields[k := incoming[k]];
        todo := todo - {k};
      }
      assert incoming.Keys - {} == incoming.Keys;
      assert (map k | k in incoming.Keys :: incoming[k]) == incoming;
      if u == unit {
        assert base + incoming == incoming;
      }
      UpdateMarker();
      return Returned(this);
    }
  }

  /** `uid` of a possibly missing record; a missing one reads as undefined. */
  function UidOf(u: JsObject?): JsValue
    reads u
  {
    if u == null then Undefined else Get(u.fields, "uid")
  }

  /** A possibly missing record, as a frame. */
  function Present(u: JsObject?): set<JsObject> {
    if u == null then {} else {u}
  }

  /** The set with `x` added when absent and removed when present. */
  function Toggled(s: set<JsValue>, x: JsValue): (r: set<JsValue>)
    ensures x in r <==> x !in s
    ensures forall y :: y != x ==> (y in r <==> y in s)
  {
    if x in s then s - {x} else s + {x}
  }

  /** Toggling the same uid twice restores the selection. */
  lemma ToggledTwice(s: set<JsValue>, x: JsValue)
    ensures Toggled(Toggled(s, x), x) == s
  {
  }

  /** The flag derivation written onto the incoming object; returns the
      exception that escaped it, if any. */
  method WriteFlags(u: JsObject, parse: JsValue -> Option<JsValue>, urlMatch: string -> Option<string>)
    returns (error: Option<string>)
    modifies u`fields
    ensures u.fields == DeriveFlags(old(u.fields), parse, urlMatch).fields
    ensures error == DeriveFlags(old(u.fields), parse, urlMatch).error
    ensures Get(u.fields, "uid") == old(Get(u.fields, "uid"))
  {
    var d := DeriveFlags(u.fields, parse, urlMatch);
    assert "uid" !in FlagKeys;
    u.fields := d.fields;
    error := d.error;
  }

  /** The edit form written back onto a record. */
  method WriteForm(rec: JsObject, form: Form)
    modifies rec`fields
    ensures rec.fields == SavedFields(old(rec.fields), form)
    ensures Get(rec.fields, "uid") == old(Get(rec.fields, "uid"))
  {
    rec.fields := SavedFields(rec.fields, form);
    assert "uid" !in EditedKeys;
  }

  /** The uids named by the first `n` records of a snapshot. */
  ghost function NamedUids(uids: seq<JsValue>, n: nat): set<JsValue>
    requires n <= |uids|
  {
    if n == 0 then {} else NamedUids(uids, n - 1) + {uids[n - 1]}
  }

  /** The uids of the records actually present among the first `n`. */
  ghost function PresentUids(data: seq<JsObject?>, uids: seq<JsValue>, n: nat): set<JsValue>
    requires n <= |data| == |uids|
  {
    if n == 0 then {}
    else PresentUids(data, uids, n - 1) + (if data[n - 1] != null then {uids[n - 1]} else {})
  }

  lemma {:induction false} PrefixSets(data: seq<JsObject?>, uids: seq<JsValue>, n: nat)
    requires n <= |data| == |uids|
    ensures NamedUids(uids, n) == set j | 0 <= j < n :: uids[j]
    ensures PresentUids(data, uids, n) == set j | 0 <= j < n && data[j] != null :: uids[j]
  {
    if n > 0 {
      PrefixSets(data, uids, n - 1);
    }
  }

  /** How the key set of the prune pass evolves by one key. */
  lemma PruneStep(cur: set<JsValue>, next: set<JsValue>, base: set<JsValue>, keys: set<JsValue>,
                  todo: set<JsValue>, k: JsValue)
    requires cur == (base * keys) + todo && k in todo && todo <= base
    requires next == (if k in keys then cur else cur - {k})
    ensures next == (base * keys) + (todo - {k})
  {
  }

  /** How the key set of the removal loop evolves by one uid. */
  lemma RemovePrefixStep(cur: set<JsValue>, next: set<JsValue>, base: set<JsValue>, uids: seq<JsValue>, i: nat)
    requires i < |uids|
    requires cur == base - set j | 0 <= j < i :: uids[j]
    requires next == cur - {uids[i]}
    ensures next == base - set j | 0 <= j < i + 1 :: uids[j]
  {
    assert (set j | 0 <= j < i + 1 :: uids[j]) == (set j | 0 <= j < i :: uids[j]) + {uids[i]};
  }

  /** How the key set of the upsert pass grows by one record. */
  lemma PresentStep(cur: set<JsValue>, next: set<JsValue>, base: set<JsValue>,
                    data: seq<JsObject?>, uids: seq<JsValue>, i: nat)
    requires i < |data| == |uids|
    requires cur == base + PresentUids(data, uids, i)
    requires next == cur + (if data[i] != null then {uids[i]} else {})
    ensures next == base + PresentUids(data, uids, i + 1)
  {
  }

  /** Requests the client sends to its server (the network itself is not
      modelled). */
  datatype Request = FetchUnits | FetchMessages | PostUnit(record: Record) | DeleteUnit(uid: JsValue)

  /** One `DELETE /api/unit/<uid>` per uid, in order. */
  function DeleteRequests(uids: seq<JsValue>): (r: seq<Request>)
    ensures |r| == |uids| && forall i | 0 <= i < |uids| :: r[i] == DeleteUnit(uids[i])
  {
    seq(|uids|, i requires 0 <= i < |uids| => DeleteUnit(uids[i]))
  }

  /** A push frame from the server's WebSocket: its `type`, the unit it
      carries (`null` when absent) and the uid it names. */
  datatype Frame = Frame(kind: JsValue, unit: JsObject?, uid: JsValue)

  class MapApp {
    var units: map<JsValue, Unit>
    var ts: int
    var currentUnitUid: JsValue
    var formUnit: Form
    var types: Option<TypeNode>
    var selectedUnits: set<JsValue>
    var multiSelectMode: bool
    /** Whether a WebSocket was ever created (set when the socket object is
      made, not when it opens); nothing clears it. */
    var conn: bool
    var requests: seq<Request>

    /** Every unit and every record the store ever held (a proof device:
      both only grow, and frame the store's invariant). */
    ghost var Stored: set<Unit>
    ghost var Records: set<JsObject>

    /** Every unit is stored under its own uid, which is also its record's
      `uid`; the current unit, if any, is a stored unit with a truthy uid. */
    ghost predicate Valid()
      reads this`units, this`currentUnitUid, this`Stored, this`Records, Records`fields
    {
      && (forall k | k in units ::
            units[k] in Stored && units[k].unit in Records && units[k].uid == k && Get(units[k].unit.fields, "uid") == k)
      && (currentUnitUid == Null || (Truthy(currentUnitUid) && currentUnitUid in units))
    }

    /** The first half of `Valid`, which holds while a removed unit may still
      be current. */
    ghost predicate StoreValid()
      reads this`units, this`Stored, this`Records, Records`fields
    {
      forall k | k in units ::
        units[k] in Stored && units[k].unit in Records && units[k].uid == k && Get(units[k].unit.fields, "uid") == k
    }

    /** The stored unit under `uid`, if any. */
    ghost function UnitAt(uid: JsValue): set<Unit>
      reads this`units
    {
      if uid in units then {units[uid]} else {}
    }

    /** The existing unit a record `u` would be merged into. */
    ghost function TouchedUnit(u: JsObject?): set<Unit>
      reads this`units, u
    {
      if u != null then UnitAt(Get(u.fields, "uid")) else {}
    }

    /** The stored record a record `u` would be merged into. */
    ghost function TouchedRecord(u: JsObject?): set<JsObject>
      reads this`units, u
    {
      if u != null && Get(u.fields, "uid") in units then {units[Get(u.fields, "uid")].unit} else {}
    }

    constructor ()
      ensures Valid()
      ensures units == map[] && ts == 0 && currentUnitUid == Null && formUnit == UnsetForm
      ensures types == None && selectedUnits == {} && !multiSelectMode && !conn && requests == []
    {
      units := map[];
      ts := 0;
      currentUnitUid := Null;
      formUnit := UnsetForm;
      types := None;
      selectedUnits := {};
      multiSelectMode := false;
      conn := false;
      requests := [];
      Stored := {};
      Records := {};
    }

    /** The insertion half of `processUnit`: a new unit wrapping `u`. */
    method Insert(u: JsObject) returns (unit: Unit)
      requires Valid() && Get(u.fields, "uid") !in units
      modifies this`units, this`Stored, this`Records
      ensures Valid()
      ensures Stored == old(Stored) + {unit} && Records == old(Records) + {u}
      ensures fresh(unit) && unit.unit == u && unit.uid == Get(u.fields, "uid")
      ensures unit.marker == HasCoords(u.fields)
      ensures units == old(units)[Get(u.fields, "uid") := unit]
    {
      unit := new Unit(u);
      units := units[unit.uid := unit];
      Stored := Stored + {unit};
      Records := Records + {u};
    }

    /** The merge half of `processUnit`: `Unit.update` on the stored unit,
      which cannot refuse the record since the unit is stored under the
      record's uid. */
    method Merge(u: JsObject) returns (o: Outcome<Unit>)
      requires Valid() && Get(u.fields, "uid") in units
      modifies TouchedUnit(u)`redraw, TouchedUnit(u)`marker, TouchedRecord(u)`fields
      ensures Valid()
      ensures u.fields == old(u.fields)
      ensures var key := old(Get(u.fields, "uid"));
        var stored := old(units[key].unit.fields);
        var needs := NeedsRedraw(stored, old(u.fields));
        && (needs.Threw? ==> o.Threw? && unchanged(units[key], units[key].unit) && u.fields == old(u.fields))
        && (needs.Returned? ==>
              && o == Returned(units[key])
              && units[key].unit.fields == stored + old(u.fields)
              && units[key].redraw == (needs.value && !HasCoords(stored + old(u.fields))))
    {
      var unit := units[Get(u.fields, "uid")];
      o := unit.Update(u);
      if o.Returned? {
        forall k | k in units ensures Get(units[k].unit.fields, "uid") == k {
          if units[k].unit == unit.unit {
            assert units[k] == unit;
          }
        }
      }
    }

    /** The flag derivation written onto the incoming record, which may be
      a stored one: its uid is untouched, so the store stays keyed. */
    method FlagIncoming(u: JsObject, parse: JsValue -> Option<JsValue>, urlMatch: string -> Option<string>)
      returns (error: Option<string>)
      requires Valid()
      modifies u`fields
      ensures Valid()
      ensures u.fields == DeriveFlags(old(u.fields), parse, urlMatch).fields
      ensures error == DeriveFlags(old(u.fields), parse, urlMatch).error
      ensures Get(u.fields, "uid") == old(Get(u.fields, "uid"))
    {
      error := WriteFlags(u, parse, urlMatch);
      forall k | k in units ensures Get(units[k].unit.fields, "uid") == k {
      }
    }

    /** `processUnit` on a record with a new uid: a new unit wrapping that
      very record, whose flags are then derived in place. */
    method AddUnit(u: JsObject, parse: JsValue -> Option<JsValue>, urlMatch: string -> Option<string>)
      returns (r: Outcome<Option<Unit>>)
      requires Valid() && Get(u.fields, "uid") !in units
      modifies this`units, this`ts, this`Stored, this`Records, u`fields
      ensures Valid()
      ensures forall x | x in Stored :: x in old(Stored) || fresh(x)
      ensures Records == old(Records) + {u}
      ensures Get(u.fields, "uid") == old(Get(u.fields, "uid")) && Get(u.fields, "uid") in units
      ensures r.Threw? ==> ts == old(ts)
      ensures r.Returned? ==> ts == old(ts) + 1 && r.value == Some(units[Get(u.fields, "uid")])
      ensures var key := old(Get(u.fields, "uid"));
        var d := DeriveFlags(old(u.fields), parse, urlMatch);
        && units == old(units)[key := units[key]]
        && fresh(units[key]) && units[key].unit == u
        && units[key].marker == HasCoords(old(u.fields))
        && u.fields == d.fields
        && (r.Threw? <==> d.error.Some?)
    {
      var unit := Insert(u);
      var error := FlagIncoming(u, parse, urlMatch);
      if error.Some? {
        return Threw(error.value);
      }
      ts := ts + 1;
      r := Returned(Some(unit));
    }

    /** `processUnit` on a record whose uid is stored: `Unit.update` on the
      stored unit, then the flags derived onto the incoming record. */
    method MergeUnit(u: JsObject, parse: JsValue -> Option<JsValue>, urlMatch: string -> Option<string>)
      returns (r: Outcome<Option<Unit>>)
      requires Valid() && Get(u.fields, "uid") in units
      modifies this`ts, TouchedUnit(u)`redraw, TouchedUnit(u)`marker, TouchedRecord(u)`fields, u`fields
      ensures Valid()
      ensures units == old(units) && Stored == old(Stored) && Records == old(Records)
      ensures Get(u.fields, "uid") == old(Get(u.fields, "uid")) && Get(u.fields, "uid") in units
      ensures r.Threw? ==> ts == old(ts)
      ensures r.Returned? ==> ts == old(ts) + 1 && r.value == Some(units[Get(u.fields, "uid")])
      ensures var key := old(Get(u.fields, "uid"));
        var stored := old(units[key].unit.fields);
        var needs := NeedsRedraw(stored, old(u.fields));
        var d := DeriveFlags(old(u.fields), parse, urlMatch);
        && (needs.Threw? ==> r.Threw? && u.fields == old(u.fields) && units[key].unit.fields == stored)
        && (needs.Returned? ==>
              && u.fields == d.fields
              && (units[key].unit != u ==> units[key].unit.fields == stored + old(u.fields))
              && (r.Threw? <==> d.error.Some?)
              && units[key].redraw == (needs.value && !HasCoords(stored + old(u.fields))))
    {
      var o := Merge(u);
      if o.Threw? {
        return Threw(o.reason);
      }
      var unit := o.value;
      var error := FlagIncoming(u, parse, urlMatch);
      if error.Some? {
        return Threw(error.value);
      }
      ts := ts + 1;
      r := Returned(Some(unit));
    }

    /** `processUnit`: ignores a missing record; stores a record with a new
      uid as a new unit wrapping that very object, or merges it into the
      existing unit; then derives the camera and repository flags onto the
      incoming object (`parse` stands for `JSON.parse`, `urlMatch` for the
      URL regular expression) and counts the change in `ts`. The flags reach
      the stored record only when the incoming object is the stored one,
      which is always the case for a new uid. */
    method ProcessUnit(u: JsObject?, parse: JsValue -> Option<JsValue>, urlMatch: string -> Option<string>)
      returns (r: Outcome<Option<Unit>>)
      requires Valid()
      modifies this`units, this`ts, this`Stored, this`Records, Present(u)`fields
      modifies TouchedUnit(u)`redraw, TouchedUnit(u)`marker, TouchedRecord(u)`fields
      ensures Valid()
      ensures forall x | x in Stored :: x in old(Stored) || fresh(x)
      ensures forall x | x in Records :: x in old(Records) || x == u
      ensures u == null ==> r == Returned(None) && units == old(units) && ts == old(ts)
      ensures u != null ==> Get(u.fields, "uid") == old(Get(u.fields, "uid")) && Get(u.fields, "uid") in units
      ensures r.Threw? ==> ts == old(ts)
      ensures r.Returned? && u != null ==> ts == old(ts) + 1 && r.value == Some(units[Get(u.fields, "uid")])
      ensures u != null && old(Get(u.fields, "uid")) !in old(units) ==>
        var key := old(Get(u.fields, "uid"));
        var d := DeriveFlags(old(u.fields), parse, urlMatch);
        && units == old(units)[key := units[key]]
        && fresh(units[key]) && units[key].unit == u
        && units[key].marker == HasCoords(old(u.fields))
        && u.fields == d.fields
        && (r.Threw? <==> d.error.Some?)
      ensures u != null && old(Get(u.fields, "uid")) in old(units) ==>
        var key := old(Get(u.fields, "uid"));
        var stored := old(units[key].unit.fields);
        var needs := NeedsRedraw(stored, old(u.fields));
        var d := DeriveFlags(old(u.fields), parse, urlMatch);
        && units == old(units)
        && (needs.Threw? ==> r.Threw? && u.fields == old(u.fields) && units[key].unit.fields == stored)
        && (needs.Returned? ==>
              && u.fields == d.fields
              && (units[key].unit != u ==> units[key].unit.fields == stored + old(u.fields))
              && (r.Threw? <==> d.error.Some?)
              && units[key].redraw == (needs.value && !HasCoords(stored + old(u.fields))))
    {
      if u == null {
        return Returned(None);
      }
      if Get(u.fields, "uid") !in units {
        r := AddUnit(u, parse, urlMatch);
      } else {
        r := MergeUnit(u, parse, urlMatch);
      }
    }

    /** `setCurrentUnitUid`: only a truthy uid of a stored unit becomes
      current, anything else clears the selection; the edit form follows,
      and an exception from `formFromUnit` escapes after the uid and the
      base form were stored. (Centring the map on the unit is not
      modelled.) */
    method SetCurrentUnitUid(uid: JsValue) returns (o: Outcome<()>)
      requires StoreValid()
      modifies this`currentUnitUid, this`formUnit
      ensures Valid()
      ensures currentUnitUid == (if Truthy(uid) && uid in units then uid else Null)
      ensures formUnit == (if Truthy(uid) && uid in units then FormShown(units[uid].unit.fields, types) else EmptyForm)
      ensures o.Threw? <==> Truthy(uid) && uid in units && FormFromRecord(units[uid].unit.fields, types).Threw?
    {
      if Truthy(uid) && uid in units {
        currentUnitUid := uid;
        var shown := FormFromRecord(units[uid].unit.fields, types);
        formUnit := FormShown(units[uid].unit.fields, types);
        o := if shown.Threw? then Threw(shown.reason) else Returned(());
      } else {
        currentUnitUid := Null;
        formUnit := EmptyForm;
        o := Returned(());
      }
    }

    /** `getCurrentUnit`. */
    method GetCurrentUnit() returns (u: Unit?)
      requires Valid()
      ensures u == null <==> currentUnitUid == Null
      ensures u != null ==> currentUnitUid in units && u == units[currentUnitUid] && u.uid == currentUnitUid
    {
      if !Truthy(currentUnitUid) || currentUnitUid !in units {
        return null;
      }
      return units[currentUnitUid];
    }

    /** `removeUnit`: an absent uid changes nothing; otherwise the marker is
      dropped, the entry deleted, and the selection cleared if it was this
      unit. */
    method RemoveUnit(uid: JsValue)
      requires Valid()
      modifies this`units, this`currentUnitUid, this`formUnit, UnitAt(uid)`marker
      ensures Valid()
      ensures uid !in old(units) ==>
        units == old(units) && currentUnitUid == old(currentUnitUid) && formUnit == old(formUnit)
      ensures uid in old(units) ==> units == old(units) - {uid} && !old(units[uid]).marker
      ensures currentUnitUid == (if uid in old(units) && old(currentUnitUid) == uid then Null else old(currentUnitUid))
      ensures uid in old(units) && old(currentUnitUid) == uid ==> formUnit == EmptyForm
      ensures uid in old(units) && old(currentUnitUid) != uid ==> formUnit == old(formUnit)
    {
      if uid !in units {
        return;
      }
      var item := units[uid];
      item.RemoveMarker();
      units := units - {uid};
      if currentUnitUid == uid {
        var _ := SetCurrentUnitUid(Null);
      }
    }

    /** The prune pass of `processUnits`: removes every stored uid not in
      `keys`. */
    method PruneExcept(keys: set<JsValue>)
      requires Valid()
      modifies this`units, this`currentUnitUid, this`formUnit, Stored`marker
      ensures Valid()
      ensures units.Keys == old(units.Keys) * keys
    {
      var todo := units.Keys;
      while todo != {}
        invariant Valid()
        invariant todo <= old(units.Keys)
        invariant units.Keys == (old(units.Keys) * keys) + todo
        invariant forall k | k in units :: units[k] == old(units[k])
        decreases todo
      {
        var k :| k in todo;
        ghost var cur := units.Keys;
        if k !in keys {
          RemoveUnit(k);
          assert units.Keys == cur - {k};
        }
        PruneStep(cur, units.Keys, old(units.Keys), keys, todo, k);
        todo := todo - {k};
      }
    }

    /** The records a snapshot carries. */
    ghost function Objects(data: seq<JsObject?>): set<JsObject> {
      set x: JsObject | x in data
    }

    /** The uid of each record of a snapshot. */
    ghost function UidsOf(data: seq<JsObject?>): (r: seq<JsValue>)
      reads set x: JsObject | x in data
      ensures |r| == |data| && forall j | 0 <= j < |data| :: r[j] == UidOf(data[j])
    {
      if data == [] then [] else [UidOf(data[0])] + UidsOf(data[1..])
    }

    /** The uids a snapshot names: a missing record counts as undefined. */
    ghost function SnapshotUids(data: seq<JsObject?>): set<JsValue>
      reads set x: JsObject | x in data
    {
      set j | 0 <= j < |data| :: UidOf(data[j])
    }

    /** The uids of the records a snapshot actually carries. */
    ghost function CarriedUids(data: seq<JsObject?>): set<JsValue>
      reads set x: JsObject | x in data
    {
      set j | 0 <= j < |data| && data[j] != null :: UidOf(data[j])
    }

    /** One step of the upsert pass of `processUnits`: `processUnit` on the
      `i`-th record, with what the pass needs to know about it. */
    method UpsertAt(data: seq<JsObject?>, ghost uids: seq<JsValue>, i: nat,
                    parse: JsValue -> Option<JsValue>, urlMatch: string -> Option<string>)
      returns (r: Outcome<Option<Unit>>)
      requires Valid() && i < |data| == |uids|
      requires forall j | 0 <= j < |data| :: UidOf(data[j]) == uids[j]
      modifies this`units, this`ts, this`Stored, this`Records, {data[i]}`fields
      modifies TouchedUnit(data[i])`redraw, TouchedUnit(data[i])`marker, TouchedRecord(data[i])`fields
      ensures Valid()
      ensures forall j | 0 <= j < |data| :: UidOf(data[j]) == uids[j]
      ensures forall x | x in Stored :: x in old(Stored) || fresh(x)
      ensures forall x | x in Records :: x in old(Records) || x == data[i]
      ensures r.Returned? ==>
        && units.Keys == old(units.Keys) + (if data[i] != null then {uids[i]} else {})
        && (if r.value.Some? then r.value.value.uid else Undefined) == uids[i]
    {
      label before:
      r := ProcessUnit(data[i], parse, urlMatch);
      forall j | 0 <= j < |data| ensures UidOf(data[j]) == uids[j] {
        if data[j] != null && data[j] != data[i] && data[i] != null {
          var key := old@before(Get(data[i].fields, "uid"));
          if key in old@before(units) {
            assert old@before(units[key].unit) in old@before(Records);
          }
        }
      }
    }

    /** The upsert pass of `processUnits`: `processUnit` on every record in
      turn, collecting the uids it names. An exception stops the pass. */
    method UpsertAll(data: seq<JsObject?>, parse: JsValue -> Option<JsValue>, urlMatch: string -> Option<string>)
      returns (keys: set<JsValue>, o: Outcome<()>)
      requires Valid()
      modifies this`units, this`ts, this`Stored, this`Records
      modifies Stored`redraw, Stored`marker, Records`fields, Objects(data)`fields
      ensures Valid()
      ensures forall x | x in Stored :: x in old(Stored) || fresh(x)
      ensures o.Returned? ==> keys == old(SnapshotUids(data))
      ensures o.Returned? ==> units.Keys == old(units.Keys) + old(CarriedUids(data))
    {
      ghost var uids := UidsOf(data);
      keys := {};
      var i := 0;
      while i < |data|
        invariant 0 <= i <= |data|
        invariant Valid()
        invariant forall j | 0 <= j < |data| :: UidOf(data[j]) == uids[j]
        invariant keys == NamedUids(uids, i)
        invariant units.Keys == old(units.Keys) + PresentUids(data, uids, i)
        invariant forall x | x in Stored :: x in old(Stored) || fresh(x)
        invariant forall x | x in Records :: x in old(Records) || x in Objects(data)
      {
        ghost var cur := units.Keys;
        var r := UpsertAt(data, uids, i, parse, urlMatch);
        if r.Threw? {
          return keys, Threw(r.reason);
        }
        keys := keys + {if r.value.Some? then r.value.value.uid else Undefined};
        PresentStep(cur, units.Keys, old(units.Keys), data, uids, i);
        i := i + 1;
      }
      PrefixSets(data, uids, |data|);
      o := Returned(());
    }

    /** `processUnits`: upserts every record of a full snapshot, then prunes
      every stored uid the snapshot does not name. A missing record names
      `undefined`, so it keeps a stored unit without uid. An exception from
      `processUnit` aborts the pass (nothing is pruned). */
    method ProcessUnits(data: seq<JsObject?>, parse: JsValue -> Option<JsValue>, urlMatch: string -> Option<string>)
      returns (o: Outcome<()>)
      requires Valid()
      modifies this`units, this`ts, this`currentUnitUid, this`formUnit, this`Stored, this`Records
      modifies Stored`redraw, Stored`marker, Records`fields, Objects(data)`fields
      ensures Valid()
      ensures o.Returned? ==>
        units.Keys == (old(units.Keys) + old(CarriedUids(data))) * old(SnapshotUids(data))
      ensures o.Returned? && null !in data ==> units.Keys == old(SnapshotUids(data))
    {
      var keys;
      keys, o := UpsertAll(data, parse, urlMatch);
      if o.Threw? {
        return;
      }
      PruneExcept(keys);
    }

    /** `processWS`: a "unit" frame goes through `processUnit` (an exception
      escapes the handler), a "delete" frame through `removeUnit`, a "chat"
      frame refetches the messages; any other frame is ignored. */
    method ProcessWS(frame: Frame, parse: JsValue -> Option<JsValue>, urlMatch: string -> Option<string>)
      returns (o: Outcome<()>)
      requires Valid()
      modifies this`units, this`ts, this`Stored, this`Records, this`currentUnitUid, this`formUnit, this`requests
      modifies Present(frame.unit)`fields, TouchedUnit(frame.unit)`redraw, TouchedUnit(frame.unit)`marker
      modifies TouchedRecord(frame.unit)`fields, UnitAt(frame.uid)`marker
      ensures Valid()
      ensures frame.kind == Str("unit") ==>
        && units.Keys == old(units.Keys) + (if frame.unit != null then {old(UidOf(frame.unit))} else {})
        && requests == old(requests)
        && (o.Returned? ==> ts == old(ts) + (if frame.unit != null then 1 else 0))
        && (o.Threw? ==> frame.unit != null && ts == old(ts))
      ensures frame.kind == Str("delete") ==>
        && o.Returned? && ts == old(ts) && requests == old(requests)
        && units == (if frame.uid in old(units) then old(units) - {frame.uid} else old(units))
        && currentUnitUid == (if old(currentUnitUid) == frame.uid then Null else old(currentUnitUid))
      ensures frame.kind == Str("chat") ==>
        o.Returned? && units == old(units) && ts == old(ts) && requests == old(requests) + [FetchMessages]
      ensures frame.kind != Str("unit") && frame.kind != Str("delete") && frame.kind != Str("chat") ==>
        o.Returned? && units == old(units) && ts == old(ts) && requests == old(requests)
    {
      o := Returned(());
      // The three kinds are distinct, so the source's three independent
      // tests select at most one branch.
      if frame.kind == Str("unit") {
        var r := ProcessUnit(frame.unit, parse, urlMatch);
        if r.Threw? {
          o := Threw(r.reason);
        }
      } else if frame.kind == Str("delete") {
        RemoveUnit(frame.uid);
      } else if frame.kind == Str("chat") {
        requests := requests + [FetchMessages];
      }
    }

    /** `toggleUnitSelection`: flips the uid's membership in the selection
      and refreshes that unit's marker when it is stored. */
    method ToggleUnitSelection(uid: JsValue)
      modifies this`selectedUnits, UnitAt(uid)`redraw, UnitAt(uid)`marker
      ensures selectedUnits == Toggled(old(selectedUnits), uid)
      ensures uid in units ==>
        && units[uid].marker == HasCoords(units[uid].unit.fields)
        && units[uid].redraw == (old(units[uid].redraw) && !HasCoords(units[uid].unit.fields))
    {
      selectedUnits := Toggled(selectedUnits, uid);
      if uid in units {
        units[uid].UpdateMarker();
      }
    }

    /** `redrawAllMarkers`: `updateMarker` on every stored unit. */
    method RedrawAllMarkers()
      requires Valid()
      modifies units.Values`redraw, units.Values`marker
      ensures forall k | k in units ::
        && units[k].marker == HasCoords(units[k].unit.fields)
        && units[k].redraw == (old(units[k].redraw) && !HasCoords(units[k].unit.fields))
    {
      var todo := units.Keys;
      while todo != {}
        invariant todo <= units.Keys
        invariant forall k | k in units && k !in todo ::
          && units[k].marker == HasCoords(units[k].unit.fields)
          && units[k].redraw == (old(units[k].redraw) && !HasCoords(units[k].unit.fields))
        invariant forall k | k in todo :: units[k].redraw == old(units[k].redraw)
        decreases todo
      {
        var k :| k in todo;
        units[k].UpdateMarker();
        todo := todo - {k};
      }
    }

    /** `toggleMultiSelect`: leaving multi-select mode clears the selection
      and redraws every marker. (Checking the select tool is not modelled.) */
    method ToggleMultiSelect()
      requires Valid()
      modifies this`multiSelectMode, this`selectedUnits, units.Values`redraw, units.Values`marker
      ensures multiSelectMode == !old(multiSelectMode)
      ensures multiSelectMode ==> selectedUnits == old(selectedUnits) && forall k | k in units :: unchanged(units[k])
      ensures !multiSelectMode ==> selectedUnits == {} && forall k | k in units ::
        && units[k].marker == HasCoords(units[k].unit.fields)
        && units[k].redraw == (old(units[k].redraw) && !HasCoords(units[k].unit.fields))
    {
      multiSelectMode := !multiSelectMode;
      if !multiSelectMode {
        selectedUnits := {};
        RedrawAllMarkers();
      }
    }

    /** The stored uids whose record's category is "point". */
    ghost function PointKeys(): set<JsValue>
      requires Valid()
      reads this`units, this`currentUnitUid, this`Stored, this`Records, Records`fields
    {
      set k | k in units && Get(units[k].unit.fields, "category") == Str("point")
    }

    /** The uids `clearAllPoints` collects: every stored unit whose record's
      category is "point", each once. */
    method PointUids() returns (points: seq<JsValue>)
      requires Valid()
      ensures forall k :: k in points <==> k in units && Get(units[k].unit.fields, "category") == Str("point")
      ensures forall i, j | 0 <= i < j < |points| :: points[i] != points[j]
    {
      points := [];
      var todo := units.Keys;
      while todo != {}
        invariant todo <= units.Keys
        invariant forall k :: k in points <==>
          k in units && k !in todo && Get(units[k].unit.fields, "category") == Str("point")
        invariant forall i, j | 0 <= i < j < |points| :: points[i] != points[j]
        decreases todo
      {
        var k :| k in todo;
        if Get(units[k].unit.fields, "category") == Str("point") {
          points := points + [k];
        }
        todo := todo - {k};
      }
    }

    /** `removeUnit` on each uid in turn. */
    method RemoveAll(uids: seq<JsValue>)
      requires Valid()
      modifies this`units, this`currentUnitUid, this`formUnit, Stored`marker
      ensures Valid()
      ensures units.Keys == old(units.Keys) - set i | 0 <= i < |uids| :: uids[i]
      ensures forall k | k in units :: units[k] == old(units[k])
    {
      var i := 0;
      while i < |uids|
        invariant 0 <= i <= |uids|
        invariant Valid()
        invariant units.Keys == old(units.Keys) - set j | 0 <= j < i :: uids[j]
        invariant forall k | k in units :: units[k] == old(units[k])
      {
        ghost var cur := units.Keys;
        RemoveUnit(uids[i]);
        assert units.Keys == cur - {uids[i]};
        RemovePrefixStep(cur, units.Keys, old(units.Keys), uids, i);
        i := i + 1;
      }
    }

    /** `clearAllPoints`: with no point stored, or when the user does not
      confirm, nothing happens; otherwise one delete request per point is
      sent and, once they have all settled, every collected point is
      removed and the units are refetched. */
    method ClearAllPoints(confirmed: bool) returns (cleared: seq<JsValue>)
      requires Valid()
      modifies this`units, this`currentUnitUid, this`formUnit, this`requests, Stored`marker
      ensures Valid()
      ensures forall k :: k in cleared <==> k in old(PointKeys())
      ensures cleared == [] || !confirmed ==>
        units == old(units) && requests == old(requests) && currentUnitUid == old(currentUnitUid)
      ensures cleared != [] && confirmed ==>
        && units.Keys == old(units.Keys) - old(PointKeys())
        && requests == old(requests) + DeleteRequests(cleared) + [FetchUnits]
    {
      cleared := PointUids();
      if cleared == [] || !confirmed {
        return;
      }
      ghost var points := PointKeys();
      assert (set i | 0 <= i < |cleared| :: cleared[i]) == points;
      requests := requests + DeleteRequests(cleared);
      ghost var sent := requests;
      RemoveAll(cleared);
      requests := requests + [FetchUnits];
      assert requests == sent + [FetchUnits];
    }

    /** `saveEditForm`: without a current unit nothing happens; otherwise
      the form is written onto its record, the marker is redrawn and the
      record is posted to the server. */
    method SaveEditForm()
      requires Valid()
      modifies this`requests
      modifies UnitAt(currentUnitUid)`redraw, UnitAt(currentUnitUid)`marker
      modifies if currentUnitUid in units then {units[currentUnitUid].unit} else {}
      ensures Valid()
      ensures currentUnitUid == Null ==> requests == old(requests)
      ensures currentUnitUid != Null ==>
        var u := units[currentUnitUid];
        && u.unit.fields == SavedFields(old(u.unit.fields), formUnit)
        && u.marker == HasCoords(u.unit.fields)
        && u.redraw == !HasCoords(u.unit.fields)
        && requests == old(requests) + [PostUnit(u.unit.fields)]
    {
      var u := GetCurrentUnit();
      if u == null {
        return;
      }
      WriteForm(u.unit, formUnit);
      forall k | k in units
        ensures Get(units[k].unit.fields, "uid") == k
      {
        if units[k].unit == u.unit {
          assert Get(u.unit.fields, "uid") == old(Get(u.unit.fields, "uid"));
        }
      }
      u.redraw := true;
      u.UpdateMarker();
      requests := requests + [PostUnit(u.unit.fields)];
    }

    /** `connect`: fetches the units and messages and creates the WebSocket,
      whose frames then go to `ProcessWS`. (Status and the reconnect timer
      are not modelled.) */
    method Connect()
      modifies this`conn, this`requests
      ensures conn
      ensures requests == old(requests) + [FetchUnits, FetchMessages]
    {
      requests := requests + [FetchUnits, FetchMessages];
      conn := true;
    }

    /** `renew`, the polling tick: fetches only while no WebSocket was ever
      created. */
    method Renew()
      modifies this`requests
      ensures requests == if conn then old(requests) else old(requests) + [FetchUnits, FetchMessages]
    {
      if !conn {
        requests := requests + [FetchUnits, FetchMessages];
      }
    }
  }
}
