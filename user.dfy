/** A directory user: a distinguished name, a friendly name, and the user's
    attributes, an insertion-ordered map from attribute name to the
    UserAttribute object stored under it (a LinkedHashMap in Java). */
module Users {
  import opened Common
  import opened LinkedMaps
  import opened UserAttributes

  /** The names of a list of attribute objects, as `getName()` reads them. */
  function NamesOf(list: seq<UserAttribute>): (ns: seq<string>)
    reads list
    ensures |ns| == |list|
    ensures forall i :: 0 <= i < |list| ==> ns[i] == list[i].name
  {
    if list == [] then [] else NamesOf(list[..|list| - 1]) + [list[|list| - 1].name]
  }

  /** The values of a list of attribute objects. */
  function SnapshotsOf(list: seq<UserAttribute>): (vs: seq<AttrValue>)
    reads list
    ensures |vs| == |list|
    ensures forall i :: 0 <= i < |list| ==> vs[i] == list[i].Snapshot()
  {
    if list == [] then [] else SnapshotsOf(list[..|list| - 1]) + [list[|list| - 1].Snapshot()]
  }

  /** The value of an attribute map: every stored object replaced by its value. */
  ghost function Snapshots(lm: LinkedMap<string, UserAttribute>): LinkedMap<string, AttrValue>
    reads lm.m.Values
  {
    LinkedMap(lm.keys, map k | k in lm.m :: lm.m[k].Snapshot())
  }

  lemma SnapshotsOfPut(lm: LinkedMap<string, UserAttribute>, k: string, v: UserAttribute)
    requires LinkedMaps.Valid(lm)
    ensures LinkedMaps.Valid(Snapshots(lm))
    ensures Snapshots(Put(lm, k, v)) == Put(Snapshots(lm), k, v.Snapshot())
  {
    assert Snapshots(lm).m.Keys == lm.m.Keys;
    var lhs, rhs := Snapshots(Put(lm, k, v)), Put(Snapshots(lm), k, v.Snapshot());
    assert lhs.m == rhs.m;
  }

  /** Building a map from objects and then reading their values gives the map
      built from the values directly. */
  lemma {:induction false} SnapshotsOfPutAll(ks: seq<string>, vs: seq<UserAttribute>, ws: seq<AttrValue>)
    requires |ks| == |vs| == |ws|
    requires forall j :: 0 <= j < |vs| ==> vs[j].Snapshot() == ws[j]
    ensures Snapshots(PutAll(Empty(), ks, vs)) == PutAll(Empty(), ks, ws)
    decreases |ks|
  {
    var n := |ks|;
    if n == 0 {
      assert Snapshots(Empty<string, UserAttribute>()).m == map[];
    } else {
      SnapshotsOfPutAll(ks[..n - 1], vs[..n - 1], ws[..n - 1]);
      SnapshotsOfPut(PutAll(Empty(), ks[..n - 1], vs[..n - 1]), ks[n - 1], vs[n - 1]);
    }
  }

  /** Reading the values of `values()` gives the values of the value map. */
  lemma ValuesOfSnapshots(lm: LinkedMap<string, UserAttribute>)
    requires LinkedMaps.Valid(lm)
    ensures LinkedMaps.Valid(Snapshots(lm))
    ensures Values(Snapshots(lm)) == SnapshotsOf(Values(lm))
  {
    assert Snapshots(lm).m.Keys == lm.m.Keys;
  }

  /** The value of a user. */
  datatype UserRecord = UserRecord(dn: string, friendlyName: string, attributes: LinkedMap<string, AttrValue>)

  class User {
    var distinguishedName: string
    var friendlyName: string
    var attributes: LinkedMap<string, UserAttribute>

    ghost predicate Valid()
      reads this
    {
      LinkedMaps.Valid(attributes)
    }

    ghost function Record(): UserRecord
      reads this, attributes.m.Values
    {
      UserRecord(distinguishedName, friendlyName, Snapshots(attributes))
    }

    /** The attribute object stored under `name`, if any. */
    function Stored(name: string): set<UserAttribute>
      reads this
    {
      if name in attributes.m then {attributes.m[name]} else {}
    }

    /** `User(distinguishedName, friendlyName)`: a user without attributes. */
    constructor (dn: string, friendlyName: string)
      ensures Valid()
      ensures distinguishedName == dn && this.friendlyName == friendlyName
      ensures attributes == Empty()
    {
      distinguishedName := dn;
      this.friendlyName := friendlyName;
      attributes := Empty();
    }

    /** `User(distinguishedName, friendlyName, userAttributes)`: one entry per
        distinct name, at the name's first occurrence, holding the last
        attribute of that name. */
    constructor WithAttributes(dn: string, friendlyName: string, list: seq<UserAttribute>)
      ensures Valid()
      ensures distinguishedName == dn && this.friendlyName == friendlyName
      ensures attributes == PutAll(Empty(), NamesOf(list), list)
    {
      distinguishedName := dn;
      this.friendlyName := friendlyName;
      attributes := Empty();
      new;
      PutEach(list);
    }

    /** The loop `for (attr : list) userAttributes.put(attr.getName(), attr)`. */
    method PutEach(list: seq<UserAttribute>)
      requires Valid()
      modifies this
      ensures Valid()
      ensures distinguishedName == old(distinguishedName) && friendlyName == old(friendlyName)
      ensures attributes == PutAll(old(attributes), NamesOf(list), list)
    {
      ghost var names, start := NamesOf(list), attributes;
      var i := 0;
      while i < |list|
        invariant 0 <= i <= |list|
        invariant Valid()
        invariant distinguishedName == old(distinguishedName) && friendlyName == old(friendlyName)
        invariant attributes == PutAll(start, names[..i], list[..i])
      {
        PutAllStep(start, names, list, i);
        attributes := Put(attributes, list[i].name, list[i]);
        i := i + 1;
      }
      assert names[..i] == names && list[..i] == list;
    }

    /** A new list of the stored attributes, in insertion order. */
    method GetUserAttributes() returns (r: seq<UserAttribute>)
      requires Valid()
      ensures r == Values(attributes)
      ensures |r| == |attributes.keys|
      ensures forall i :: 0 <= i < |r| ==> r[i] == attributes.m[attributes.keys[i]]
    {
      r := Values(attributes);
    }

    /** Clears the map and puts every attribute of the list, as the list constructor does. */
    method SetUserAttributes(list: seq<UserAttribute>)
      requires Valid()
      modifies this
      ensures Valid()
      ensures distinguishedName == old(distinguishedName) && friendlyName == old(friendlyName)
      ensures attributes == PutAll(Empty(), NamesOf(list), list)
    {
      ClearUserAttributes();
      PutEach(list);
    }

    /** A new name is appended; a present name keeps its place and gets the new object. */
    method AddUserAttribute(attr: UserAttribute)
      requires Valid()
      modifies this
      ensures Valid()
      ensures distinguishedName == old(distinguishedName) && friendlyName == old(friendlyName)
      ensures attr.name in old(attributes.m) ==> attributes.keys == old(attributes.keys)
      ensures attr.name !in old(attributes.m) ==> attributes.keys == old(attributes.keys) + [attr.name]
      ensures attributes.m == old(attributes.m)[attr.name := attr]
    {
      attributes := Put(attributes, attr.name, attr);
    }

    method ClearUserAttributes()
      modifies this
      ensures Valid()
      ensures distinguishedName == old(distinguishedName) && friendlyName == old(friendlyName)
      ensures attributes == Empty()
    {
      attributes := Empty();
    }

    /** Exact, case-sensitive lookup; null (None) when the name is absent. */
    method GetUserAttributeByName(name: string) returns (r: Option<UserAttribute>)
      ensures r.Some? <==> name in attributes.m
      ensures r.Some? ==> r.value == attributes.m[name]
    {
      r := Get(attributes, name);
    }

    /** An absent name gets a new single-valued attribute (op SET) at the end;
        a present one has its stored object's value set, which fails when that
        object is not single-valued. The keys and their order do not change then. */
    method SetSingleValuedUserAttributeByName(name: string, value: Option<string>) returns (o: Outcome)
      requires Valid()
      modifies this, Stored(name)
      ensures Valid()
      ensures distinguishedName == old(distinguishedName) && friendlyName == old(friendlyName)
      ensures name !in old(attributes.m) ==>
        && o == Pass
        && attributes.keys == old(attributes.keys) + [name]
        && name in attributes.m && fresh(attributes.m[name])
        && attributes.m == old(attributes.m)[name := attributes.m[name]]
        && attributes.m[name].Snapshot() == AttrValue(name, Some(SingleValued), SetAttribute, value, None)
      ensures name in old(attributes.m) ==>
        && attributes == old(attributes)
        && (old(attributes.m[name].kind) == Some(SingleValued) ==>
              o == Pass && attributes.m[name].Snapshot() == old(attributes.m[name].Snapshot()).(single := value))
        && (old(attributes.m[name].kind) != Some(SingleValued) ==>
              o == Fail(UnsupportedOperation) && attributes.m[name].Snapshot() == old(attributes.m[name].Snapshot()))
    {
      var attr := Get(attributes, name);
      if attr.None? {
        var created := new UserAttribute.Single(name, value, []);
        attributes := Put(attributes, name, created);
        o := Pass;
      } else {
        o := attr.value.SetSingleValue(value);
      }
    }

    /** The multi-valued counterpart of SetSingleValuedUserAttributeByName. */
    method SetMultiValuedUserAttributeByName(name: string, values: Option<StringList>) returns (o: Outcome)
      requires Valid()
      modifies this, Stored(name)
      ensures Valid()
      ensures distinguishedName == old(distinguishedName) && friendlyName == old(friendlyName)
      ensures name !in old(attributes.m) ==>
        && o == Pass
        && attributes.keys == old(attributes.keys) + [name]
        && name in attributes.m && fresh(attributes.m[name])
        && attributes.m == old(attributes.m)[name := attributes.m[name]]
        && attributes.m[name].Snapshot() == AttrValue(name, Some(MultiValued), SetAttribute, None, values)
      ensures name in old(attributes.m) ==>
        && attributes == old(attributes)
        && (old(attributes.m[name].kind) == Some(MultiValued) ==>
              o == Pass && attributes.m[name].Snapshot() == old(attributes.m[name].Snapshot()).(multi := values))
        && (old(attributes.m[name].kind) != Some(MultiValued) ==>
              o == Fail(UnsupportedOperation) && attributes.m[name].Snapshot() == old(attributes.m[name].Snapshot()))
    {
      var attr := Get(attributes, name);
      if attr.None? {
        var created := new UserAttribute.Multi(name, values, []);
        attributes := Put(attributes, name, created);
        o := Pass;
      } else {
        o := attr.value.SetMultiValues(values);
      }
    }

    /** Removes `previousName`, renames its object and puts it back under
        `newName`. An absent `previousName` leaves a null to dereference. */
    method ReplaceUserAttributeName(previousName: string, newName: string) returns (o: Outcome)
      requires Valid()
      modifies this, Stored(previousName)
      ensures Valid()
      ensures distinguishedName == old(distinguishedName) && friendlyName == old(friendlyName)
      ensures previousName !in old(attributes.m) ==> o == Fail(NullPointer) && attributes == old(attributes)
      ensures previousName in old(attributes.m) ==>
        && o == Pass
        && attributes == Put(Remove(old(attributes), previousName), newName, old(attributes.m[previousName]))
        && attributes.m[newName].Snapshot() == old(attributes.m[previousName].Snapshot()).(name := newName)
    {
      var newAttr := Get(attributes, previousName);
      attributes := Remove(attributes, previousName);
      if newAttr.None? {
        return Fail(NullPointer);
      }
      newAttr.value.SetName(newName);
      attributes := Put(attributes, newName, newAttr.value);
      o := Pass;
    }
  }
}
