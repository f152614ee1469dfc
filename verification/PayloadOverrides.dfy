/** Reading stored list overrides and marking human edits in them. */
module PayloadOverrides {
  import opened Wrappers
  import opened PayloadMerge

  // ------------------------------------------------------------- stored JSON

  datatype Json = Null | Bool(b: bool) | Text(s: string) | List(items: seq<Json>) | Object(entries: seq<(string, Json)>)

  function Field(entries: seq<(string, Json)>, key: string): (r: Option<Json>)
    ensures r.Some? <==> exists e <- entries :: e.0 == key
  {
    if entries == [] then None
    else if entries[0].0 == key then Some(entries[0].1)
    else
      var rest := Field(entries[1..], key);
      assert forall e <- entries[1..] :: e in entries;
      rest
  }

  /** The keys whose value is exactly true, in order. */
  function TrueKeys(entries: seq<(string, Json)>): seq<string>
  {
    if entries == [] then []
    else TrueKeys(entries[..|entries| - 1]) + (if entries[|entries| - 1].1 == Bool(true) then [entries[|entries| - 1].0] else [])
  }

  function AsBoolMap(value: Option<Json>): seq<string>
  {
    if value.Some? && value.value.Object? then TrueKeys(value.value.entries) else []
  }

  predicate Structured(entries: seq<(string, Json)>)
  {
    exists e <- entries :: e.0 in {"items", "suppressedIds", "wholeSection"}
  }

  /** The structured shape, or a legacy flat map of protected ids; anything else is no override. */
  function Normalize(raw: Json): ListOverrides
  {
    if !raw.Object? then NO_OVERRIDES
    else if Structured(raw.entries) then
      ListOverrides(AsBoolMap(Field(raw.entries, "items")), AsBoolMap(Field(raw.entries, "suppressedIds")),
                    Field(raw.entries, "wholeSection") == Some(Bool(true)))
    else ListOverrides(TrueKeys(raw.entries), [], false)
  }

  lemma {:induction false} TrueKeysExactly(entries: seq<(string, Json)>, id: string)
    ensures id in TrueKeys(entries) <==> (id, Bool(true)) in entries
  {
    if entries == [] {
    } else {
      var n := |entries| - 1;
      TrueKeysExactly(entries[..n], id);
      assert entries == entries[..n] + [entries[n]];
    }
  }

  /** Only a value that is exactly true protects or buries an id, and what is no object overrides nothing. */
  lemma ReadsExactly(raw: Json, id: string)
    ensures !raw.Object? ==> Normalize(raw) == ListOverrides([], [], false)
    ensures raw.Object? && !Structured(raw.entries) ==>
      (id in Normalize(raw).items <==> (id, Bool(true)) in raw.entries) && Normalize(raw).suppressed == [] && !Normalize(raw).whole
    ensures raw.Object? && Structured(raw.entries) ==>
      (Normalize(raw).whole <==> Field(raw.entries, "wholeSection") == Some(Bool(true)))
      && (id in Normalize(raw).items <==> SaysTrue(Field(raw.entries, "items"), id))
      && (id in Normalize(raw).suppressed <==> SaysTrue(Field(raw.entries, "suppressedIds"), id))
  {
    if raw.Object? {
      TrueKeysExactly(raw.entries, id);
      HeldKeys(Field(raw.entries, "items"), id);
      HeldKeys(Field(raw.entries, "suppressedIds"), id);
      hide AsBoolMap, TrueKeys, Field;
    }
  }

  /** The value is an object that says true of the id. */
  predicate SaysTrue(value: Option<Json>, id: string)
  {
    value.Some? && value.value.Object? && (id, Bool(true)) in value.value.entries
  }

  lemma HeldKeys(value: Option<Json>, id: string)
    ensures id in AsBoolMap(value) <==> SaysTrue(value, id)
  {
    if value.Some? && value.value.Object? { TrueKeysExactly(value.value.entries, id); }
  }

  function TrueMap(ids: seq<string>): (r: seq<(string, Json)>)
    ensures |r| == |ids| && forall i | 0 <= i < |ids| :: r[i] == (ids[i], Bool(true))
  {
    seq(|ids|, i requires 0 <= i < |ids| => (ids[i], Bool(true)))
  }

  /** What is written to the row. */
  function Stored(o: ListOverrides): Json
  {
    Object([("items", Object(TrueMap(o.items))), ("suppressedIds", Object(TrueMap(o.suppressed))), ("wholeSection", Bool(o.whole))])
  }

  lemma {:induction false} TrueKeysOfTrueMap(ids: seq<string>)
    ensures TrueKeys(TrueMap(ids)) == ids
  {
    if ids == [] {
    } else {
      assert TrueMap(ids)[..|ids| - 1] == TrueMap(ids[..|ids| - 1]);
      TrueKeysOfTrueMap(ids[..|ids| - 1]);
    }
  }

  /** What was stored is what is read. */
  lemma StoredRoundTrip(o: ListOverrides)
    ensures Normalize(Stored(o)) == o
  {
    TrueKeysOfTrueMap(o.items);
    TrueKeysOfTrueMap(o.suppressed);
    var a, b, c := ("items", Object(TrueMap(o.items))), ("suppressedIds", Object(TrueMap(o.suppressed))),
      ("wholeSection", Bool(o.whole));
    FieldsOfThree(a, b, c);
    assert a in Stored(o).entries;
  }

  lemma FieldsOfThree(a: (string, Json), b: (string, Json), c: (string, Json))
    requires a.0 != b.0 && a.0 != c.0 && b.0 != c.0
    ensures Field([a, b, c], a.0) == Some(a.1) && Field([a, b, c], b.0) == Some(b.1) && Field([a, b, c], c.0) == Some(c.1)
  {
    assert [a, b, c][1..] == [b, c];
    assert [b, c][1..] == [c];
    assert Field([c], c.0) == Some(c.1);
  }

  predicate Reserved(id: string)
  {
    id in {"items", "suppressedIds", "wholeSection"}
  }

  /** A legacy flat map is read as its protected ids exactly when none of them is a reserved word. */
  lemma LegacyRoundTrip(ids: seq<string>)
    ensures Normalize(Object(TrueMap(ids))) == ListOverrides(ids, [], false) <==> forall id <- ids :: !Reserved(id)
  {
    TrueKeysOfTrueMap(ids);
    var entries := TrueMap(ids);
    if id :| id in ids && Reserved(id) {
      var i :| 0 <= i < |ids| && ids[i] == id;
      assert entries[i] in entries && entries[i].0 == id;
      assert Structured(entries);
      NoObjectInside(entries, "items");
    } else {
      forall e <- entries ensures !Reserved(e.0) {
        var i :| 0 <= i < |entries| && entries[i] == e;
        assert ids[i] in ids;
      }
    }
  }

  lemma {:induction false} NoObjectInside(entries: seq<(string, Json)>, key: string)
    requires forall e <- entries :: e.1.Bool?
    ensures AsBoolMap(Field(entries, key)) == []
  {
    if entries == [] {
    } else {
      assert entries[0].1.Bool?;
      if entries[0].0 != key {
        assert forall e <- entries[1..] :: e in entries;
        NoObjectInside(entries[1..], key);
      }
    }
  }

  // ------------------------------------------------------------ marking edits

  /** `{...map, [id]: true}`. */
  function WithId(ids: seq<string>, id: string): (r: seq<string>)
    ensures forall x :: x in r <==> x in ids || x == id
  {
    if id in ids then ids else ids + [id]
  }

  function OmitId(ids: seq<string>, id: string): (r: seq<string>)
    ensures forall x :: x in r <==> x in ids && x != id
  {
    if ids == [] then []
    else OmitId(ids[..|ids| - 1], id) + (if ids[|ids| - 1] == id then [] else [ids[|ids| - 1]])
  }

  function MarkItem(o: ListOverrides, id: string): ListOverrides
  {
    o.(items := WithId(o.items, id), suppressed := OmitId(o.suppressed, id))
  }

  function MarkSuppressed(o: ListOverrides, id: string): ListOverrides
  {
    o.(items := OmitId(o.items, id), suppressed := WithId(o.suppressed, id))
  }

  /** The tombstones after every previous id that was not retained got one. */
  function WithDropped(suppressed: seq<string>, previous: seq<string>, retained: seq<string>): (r: seq<string>)
    ensures forall x :: x in r <==> x in suppressed || (x in previous && x !in retained)
  {
    if previous == [] then suppressed
    else
      var last := previous[|previous| - 1];
      var before := WithDropped(suppressed, previous[..|previous| - 1], retained);
      assert previous == previous[..|previous| - 1] + [last];
      if last in retained then before else WithId(before, last)
  }

  /** `Object.fromEntries` over the ids: each once, where it came first. */
  function Once(ids: seq<string>): (r: seq<string>)
    ensures forall x :: x in r <==> x in ids
  {
    if ids == [] then []
    else
      assert ids == ids[..|ids| - 1] + [ids[|ids| - 1]];
      WithId(Once(ids[..|ids| - 1]), ids[|ids| - 1])
  }

  function MarkWhole(o: ListOverrides, retained: seq<string>, previous: seq<string>): ListOverrides
  {
    ListOverrides(Once(retained), WithDropped(o.suppressed, previous, retained), true)
  }

  /** The loop over the previous ids, against a set of the retained ones. */
  method MarkWholeInLoop(o: ListOverrides, retained: seq<string>, previous: seq<string>) returns (next: ListOverrides)
    ensures next == MarkWhole(o, retained, previous)
  {
    var keep := set id | id in retained;
    var suppressed := o.suppressed;
    for i := 0 to |previous|
      invariant suppressed == WithDropped(o.suppressed, previous[..i], retained)
    {
      assert previous[..i + 1][..i] == previous[..i];
      if previous[i] !in keep {
        suppressed := WithId(suppressed, previous[i]);
      }
    }
    assert previous[..|previous|] == previous;
    next := ListOverrides(Once(retained), suppressed, true);
  }
}
