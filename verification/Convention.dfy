/** The `iceberg:` Zarr convention: how a group's attributes declare its tables. */
module Convention {
  import opened Options

  const CONVENTION_UUID := "66da9667-d40f-46cb-93a5-7c915af5f7dc"
  const CONVENTION_VERSION := "1"

  /** One entry of `zarr_conventions`; `rest` stands for the fields nothing here reads. */
  datatype Entry = Entry(uuid: Option<string>, rest: string)

  const CONVENTION_METADATA_OBJECT := Entry(Some(CONVENTION_UUID), "iceberg:")

  datatype TableBinding = TableBinding(location: string)

  /** A binding as stored: a JSON object, which may lack the field a binding needs. */
  type RawBinding = map<string, string>

  /** A group's attributes: the convention's three keys when present, and all the others. */
  datatype Attrs = Attrs(
    conventions: Option<seq<Entry>>,
    version: Option<string>,
    tables: Option<map<string, RawBinding>>,
    other: map<string, string>)

  const NO_ATTRS := Attrs(None, None, None, map[])

  function ToAttrs(b: TableBinding): RawBinding {
    map["location" := b.location]
  }

  predicate Readable(raw: RawBinding) {
    "location" in raw
  }

  function OrElse<T>(o: Option<T>, fallback: T): T {
    if o.Some? then o.value else fallback
  }

  predicate IsDeclared(attrs: Attrs) {
    exists e | e in OrElse(attrs.conventions, []) :: e.uuid == Some(CONVENTION_UUID)
  }

  /** The attributes after `declare`. */
  function Declared(attrs: Attrs, bindings: map<string, TableBinding>): Attrs {
    var listed := OrElse(attrs.conventions, []);
    attrs.(conventions := Some(if IsDeclared(attrs) then listed else listed + [CONVENTION_METADATA_OBJECT]),
           version := Some(CONVENTION_VERSION),
           tables := Some(OrElse(attrs.tables, map[]) + map name | name in bindings :: ToAttrs(bindings[name])))
  }

  /** None is the KeyError a binding without a location raises. */
  function ReadBindings(attrs: Attrs): Option<map<string, TableBinding>> {
    var raw := OrElse(attrs.tables, map[]);
    if forall name | name in raw :: Readable(raw[name])
    then Some(map name | name in raw :: TableBinding(raw[name]["location"]))
    else None
  }

  /** A Zarr group; `writes` counts how often its node was made dirty. */
  class Group {
    var attrs: Attrs
    var writes: nat

    constructor (attrs: Attrs)
      ensures this.attrs == attrs && writes == 0
    {
      this.attrs := attrs;
      this.writes := 0;
    }

    method Declare(bindings: map<string, TableBinding>)
      modifies this
      ensures attrs == Declared(old(attrs), bindings)
      ensures writes == old(writes) + if attrs == old(attrs) then 0 else 1
      ensures attrs.version == Some(CONVENTION_VERSION) && IsDeclared(attrs) && attrs.other == old(attrs.other)
      ensures attrs.tables.Some? && forall name | name in bindings ::
                name in attrs.tables.value && attrs.tables.value[name] == map["location" := bindings[name].location]
    {
      DeclareKeepsTheRest(attrs, bindings);
      var declared := OrElse(attrs.conventions, []);
      if !IsDeclared(attrs) {
        declared := declared + [CONVENTION_METADATA_OBJECT];
      }
      var tables := OrElse(attrs.tables, map[]);
      tables := tables + map name | name in bindings :: ToAttrs(bindings[name]);
      if attrs.conventions == Some(declared) && attrs.version == Some(CONVENTION_VERSION) && attrs.tables == Some(tables) {
        return;
      }
      attrs := attrs.(conventions := Some(declared), version := Some(CONVENTION_VERSION), tables := Some(tables));
      writes := writes + 1;
    }
  }

  function Mentions(entries: seq<Entry>): nat {
    if entries == [] then 0
    else (if entries[0].uuid == Some(CONVENTION_UUID) then 1 else 0) + Mentions(entries[1..])
  }

  lemma {:induction false} MentionsAppend(entries: seq<Entry>, e: Entry)
    ensures Mentions(entries + [e]) == Mentions(entries) + if e.uuid == Some(CONVENTION_UUID) then 1 else 0
  {
    if entries == [] {
      assert entries + [e] == [e];
    } else {
      assert (entries + [e])[0] == entries[0] && (entries + [e])[1..] == entries[1..] + [e];
      MentionsAppend(entries[1..], e);
    }
  }

  lemma {:induction false} MentionsNone(entries: seq<Entry>)
    requires forall e | e in entries :: e.uuid != Some(CONVENTION_UUID)
    ensures Mentions(entries) == 0
  {
    if entries != [] {
      assert entries[0] in entries;
      MentionsNone(entries[1..]);
    }
  }

  lemma {:induction false} MentionsSome(entries: seq<Entry>)
    requires exists e | e in entries :: e.uuid == Some(CONVENTION_UUID)
    ensures Mentions(entries) >= 1
  {
    if entries[0].uuid != Some(CONVENTION_UUID) {
      var e :| e in entries && e.uuid == Some(CONVENTION_UUID);
      assert e in entries[1..];
      MentionsSome(entries[1..]);
    }
  }

  /** Declaring again changes nothing, so the second call leaves the node clean. */
  lemma DeclareIdempotent(attrs: Attrs, bindings: map<string, TableBinding>)
    ensures Declared(Declared(attrs, bindings), bindings) == Declared(attrs, bindings)
  {
    var once := Declared(attrs, bindings);
    assert IsDeclared(once) by {
      if !IsDeclared(attrs) {
        assert CONVENTION_METADATA_OBJECT in once.conventions.value;
      } else {
        var e :| e in OrElse(attrs.conventions, []) && e.uuid == Some(CONVENTION_UUID);
        assert e in once.conventions.value;
      }
    }
    var raws := map name | name in bindings :: ToAttrs(bindings[name]);
    assert once.tables.value + raws == once.tables.value;
  }

  /** Declaring lists the convention, once unless it was already listed, and keeps all else on the node. */
  lemma DeclareKeepsTheRest(attrs: Attrs, bindings: map<string, TableBinding>)
    ensures var after := Declared(attrs, bindings);
            && IsDeclared(after)
            && after.version == Some(CONVENTION_VERSION)
            && after.other == attrs.other
            && after.conventions == Some(OrElse(attrs.conventions, [])
                 + if exists e :: e in OrElse(attrs.conventions, []) && e.uuid == Some(CONVENTION_UUID) then []
                   else [CONVENTION_METADATA_OBJECT])
            && OrElse(attrs.conventions, []) <= after.conventions.value
            && Mentions(after.conventions.value)
               == (var before := Mentions(OrElse(attrs.conventions, [])); if before == 0 then 1 else before)
  {
    var listed := OrElse(attrs.conventions, []);
    var after := Declared(attrs, bindings);
    assert listed + [] == listed;
    if IsDeclared(attrs) {
      MentionsSome(listed);
      var e :| e in listed && e.uuid == Some(CONVENTION_UUID);
      assert e in after.conventions.value;
    } else {
      MentionsNone(listed);
      MentionsAppend(listed, CONVENTION_METADATA_OBJECT);
      assert CONVENTION_METADATA_OBJECT in after.conventions.value;
    }
  }

  /** Each binding on the node after `declare`: the new one where there is one, the old one otherwise. */
  lemma MergedBinding(attrs: Attrs, bindings: map<string, TableBinding>, name: string)
    ensures var raw, merged := OrElse(attrs.tables, map[]), Declared(attrs, bindings).tables.value;
            && (name in merged <==> name in raw || name in bindings)
            && (name in bindings ==> Readable(merged[name]) && merged[name]["location"] == bindings[name].location)
            && (name !in bindings && name in raw ==> merged[name] == raw[name])
  {}

  /**
   * A reader sees the old bindings overridden by the new, exactly when every old
   * binding that is not overridden can be read.
   */
  lemma DeclareBindings(attrs: Attrs, bindings: map<string, TableBinding>)
    ensures ReadBindings(Declared(attrs, bindings)).Some? <==>
              forall name | name in OrElse(attrs.tables, map[]) && name !in bindings ::
                Readable(OrElse(attrs.tables, map[])[name])
    ensures ReadBindings(attrs).Some? ==>
              ReadBindings(Declared(attrs, bindings)) == Some(ReadBindings(attrs).value + bindings)
  {
    var raw := OrElse(attrs.tables, map[]);
    var after := Declared(attrs, bindings);
    forall name: string
      ensures name in after.tables.value <==> name in raw || name in bindings
      ensures name in bindings ==>
                Readable(after.tables.value[name]) && after.tables.value[name]["location"] == bindings[name].location
      ensures name !in bindings && name in raw ==> after.tables.value[name] == raw[name]
    {
      MergedBinding(attrs, bindings, name);
    }
    if ReadBindings(attrs).Some? {
      ReadsOverride(attrs, after, bindings);
    }
  }

  lemma ReadsOverride(before: Attrs, after: Attrs, bindings: map<string, TableBinding>)
    requires after.tables.Some? && ReadBindings(before).Some?
    requires forall name :: name in after.tables.value <==> name in OrElse(before.tables, map[]) || name in bindings
    requires forall name | name in bindings ::
               Readable(after.tables.value[name]) && after.tables.value[name]["location"] == bindings[name].location
    requires forall name | name in OrElse(before.tables, map[]) && name !in bindings ::
               after.tables.value[name] == OrElse(before.tables, map[])[name]
    ensures ReadBindings(after) == Some(ReadBindings(before).value + bindings)
  {
    var raw := OrElse(before.tables, map[]);
    forall name | name in after.tables.value ensures Readable(after.tables.value[name]) {
      assert name in bindings || name in raw;
    }
    var read, want := ReadBindings(after).value, ReadBindings(before).value + bindings;
    forall name | name in read ensures name in want && read[name] == want[name] {}
    assert read.Keys == want.Keys;
    assert read == want;
  }
}
