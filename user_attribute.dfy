/** A user attribute of a directory entry: a name, an arity tag (single- or
    multi-valued), the modification to apply with it, and the value slot that
    matches its arity. The class mirrors the mutable Java object; `Snapshot`
    gives its value, on which the comparison `hasSameValue` is specified. */
module UserAttributes {
  import opened Common

  /** Arity of an attribute. A field of this type may also hold Java null,
      which the model writes as `None`. */
  datatype AttributeType = SingleValued | MultiValued

  /** The modification requested for an attribute. */
  datatype AttributeOp = AddAttribute | SetAttribute | ClearAttribute

  /** A Java `List<String>` whose elements may be null. */
  type StringList = seq<Option<string>>

  /** The state of one UserAttribute object. */
  datatype AttrValue = AttrValue(
    name: string,
    kind: Option<AttributeType>,
    op: AttributeOp,
    single: Option<string>,
    multi: Option<StringList>)

  /** Every element of `arg` occurs in `obj` (one `List.contains` per element). */
  predicate ContainedIn(arg: StringList, obj: StringList) {
    forall x :: x in arg ==> x in obj
  }

  /** The single-valued comparison: null equals null, null differs from a
      string, two strings compare with `equals`. This is plain equality of
      nullable strings. */
  function SingleSame(arg: Option<string>, obj: Option<string>): (r: bool)
    ensures r <==> arg == obj
  {
    if arg.Some? && obj.Some? then arg.value == obj.value
    else !((arg.None? && obj.Some?) || (arg.Some? && obj.None?))
  }

  /** The multi-valued comparison: two null lists are equal, one null list
      differs, and two lists are equal when they have the same size and every
      element of the argument occurs in the receiver. */
  function MultiSame(arg: Option<StringList>, obj: Option<StringList>): bool {
    if arg.Some? && obj.Some? then |obj.value| == |arg.value| && ContainedIn(arg.value, obj.value)
    else arg.None? && obj.None?
  }

  /** `obj.hasSameValue(arg)`. */
  function SameValue(arg: AttrValue, obj: AttrValue): (r: Result<bool>)
    ensures r.Ok? <==> arg.kind.Some? && arg.kind == obj.kind
    ensures arg.kind.None? || obj.kind.None? ==> r == Err(NullPointer)
    ensures arg.kind.Some? && obj.kind.Some? && arg.kind != obj.kind ==> r == Err(UnsupportedOperation)
    ensures arg.kind == obj.kind == Some(SingleValued) ==> r == Ok(arg.single == obj.single)
    ensures arg.kind == obj.kind == Some(MultiValued) ==>
      r == Ok(arg.multi == obj.multi == None ||
              (arg.multi.Some? && obj.multi.Some? && |arg.multi.value| == |obj.multi.value| &&
               forall i :: 0 <= i < |arg.multi.value| ==> arg.multi.value[i] in obj.multi.value))
  {
    match arg.kind
    case None => Err(NullPointer)
    case Some(SingleValued) =>
      if obj.kind.None? then Err(NullPointer)
      else if obj.kind == Some(SingleValued) then Ok(SingleSame(arg.single, obj.single))
      else Err(UnsupportedOperation)
    case Some(MultiValued) =>
      if obj.kind.None? then Err(NullPointer)
      else if obj.kind == Some(MultiValued) then Ok(MultiSame(arg.multi, obj.multi))
      else Err(UnsupportedOperation)
  }

  /** The comparison is reflexive for every typed attribute. */
  lemma SameValueReflexive(a: AttrValue)
    requires a.kind.Some?
    ensures SameValue(a, a) == Ok(true)
  {
  }

  /** Reordering either list (keeping its elements with their multiplicities)
      does not change the multi-valued comparison. */
  lemma MultiSameIgnoresOrder(arg: StringList, arg': StringList, obj: StringList, obj': StringList)
    requires multiset(arg) == multiset(arg') && multiset(obj) == multiset(obj')
    ensures MultiSame(Some(arg), Some(obj)) == MultiSame(Some(arg'), Some(obj'))
  {
    assert |arg| == |multiset(arg)| == |arg'|;
    assert |obj| == |multiset(obj)| == |obj'|;
    assert forall x :: x in arg <==> x in multiset(arg);
    assert forall x :: x in arg' <==> x in multiset(arg');
    assert forall x :: x in obj <==> x in multiset(obj);
    assert forall x :: x in obj' <==> x in multiset(obj');
  }

  /** Lists with the same elements and multiplicities compare equal. */
  lemma MultiSameFromPermutation(arg: StringList, obj: StringList)
    requires multiset(arg) == multiset(obj)
    ensures MultiSame(Some(arg), Some(obj))
  {
    assert |arg| == |multiset(arg)|;
    assert forall x :: x in arg ==> x in multiset(obj);
  }

  /** The comparison is not symmetric, and it is weaker than multiset equality:
      this ["a","b"] accepts the argument ["a","a"], but not the other way round. */
  lemma MultiSameNotSymmetric()
    ensures MultiSame(Some([Some("a"), Some("a")]), Some([Some("a"), Some("b")]))
    ensures !MultiSame(Some([Some("a"), Some("b")]), Some([Some("a"), Some("a")]))
    ensures multiset([Some("a"), Some("a")]) != multiset([Some("a"), Some("b")])
  {
    assert Some("b") != Some("a");
    assert Some("b") in [Some("a"), Some("b")];
    assert Some("b") !in [Some("a"), Some("a")];
    assert multiset([Some("a"), Some("a")])[Some("b")] == 0;
  }

  /** The size guard: ["a","a"] and ["a"] differ although every element occurs in the other. */
  lemma MultiSameNeedsEqualSizes()
    ensures !MultiSame(Some([Some("a"), Some("a")]), Some([Some("a")]))
    ensures ContainedIn([Some("a"), Some("a")], [Some("a")]) && ContainedIn([Some("a")], [Some("a"), Some("a")])
  {
  }

  /** The varargs `AttributeOp ... op` of the value constructors: the op is
      taken only when exactly one is passed. */
  function OpOfVarargs(ops: seq<AttributeOp>): (op: AttributeOp)
    ensures |ops| == 1 ==> op == ops[0]
    ensures |ops| != 1 ==> op == SetAttribute
  {
    if |ops| == 1 then ops[0] else SetAttribute
  }

  class UserAttribute {
    var name: string
    var kind: Option<AttributeType>
    var op: AttributeOp
    var singleValue: Option<string>
    var multiValues: Option<StringList>

    /** The value of this object. */
    function Snapshot(): AttrValue
      reads this
    {
      AttrValue(name, kind, op, singleValue, multiValues)
    }

    /** `UserAttribute(name, type)`: no values, op SET. */
    constructor Typed(name: string, kind: Option<AttributeType>)
      ensures Snapshot() == AttrValue(name, kind, SetAttribute, None, None)
    {
      this.name := name;
      this.kind := kind;
      this.singleValue := None;
      this.multiValues := None;
      this.op := SetAttribute;
    }

    /** `UserAttribute(name, type, op)`: no values, the given op. */
    constructor TypedWithOp(name: string, kind: Option<AttributeType>, op: AttributeOp)
      ensures Snapshot() == AttrValue(name, kind, op, None, None)
    {
      this.name := name;
      this.kind := kind;
      this.singleValue := None;
      this.multiValues := None;
      this.op := op;
    }

    /** `UserAttribute(name, String singleValue, op...)`: single-valued. */
    constructor Single(name: string, singleValue: Option<string>, ops: seq<AttributeOp>)
      ensures Snapshot() == AttrValue(name, Some(SingleValued), OpOfVarargs(ops), singleValue, None)
    {
      this.name := name;
      this.kind := Some(SingleValued);
      this.singleValue := singleValue;
      this.multiValues := None;
      if |ops| == 1 {
        this.op := ops[0];
      } else {
        this.op := SetAttribute;
      }
    }

    /** `UserAttribute(name, List<String> multiValues, op...)`: multi-valued. */
    constructor Multi(name: string, multiValues: Option<StringList>, ops: seq<AttributeOp>)
      ensures Snapshot() == AttrValue(name, Some(MultiValued), OpOfVarargs(ops), None, multiValues)
    {
      this.name := name;
      this.kind := Some(MultiValued);
      this.singleValue := None;
      this.multiValues := multiValues;
      if |ops| == 1 {
        this.op := ops[0];
      } else {
        this.op := SetAttribute;
      }
    }

    method SetName(name: string)
      modifies this
      ensures Snapshot() == old(Snapshot()).(name := name)
    {
      this.name := name;
    }

    /** Changing the arity leaves both stored values as they were. */
    method SetType(kind: Option<AttributeType>)
      modifies this
      ensures Snapshot() == old(Snapshot()).(kind := kind)
    {
      this.kind := kind;
    }

    method SetOp(op: AttributeOp)
      modifies this
      ensures Snapshot() == old(Snapshot()).(op := op)
    {
      this.op := op;
    }

    method GetSingleValue() returns (r: Result<Option<string>>)
      ensures kind == Some(SingleValued) <==> r.Ok?
      ensures r.Ok? ==> r.value == singleValue
      ensures r.Err? ==> r.error == UnsupportedOperation
    {
      if kind == Some(SingleValued) {
        r := Ok(singleValue);
      } else {
        r := Err(UnsupportedOperation);
      }
    }

    method SetSingleValue(value: Option<string>) returns (o: Outcome)
      modifies this
      ensures old(kind) == Some(SingleValued) ==> o == Pass && Snapshot() == old(Snapshot()).(single := value)
      ensures old(kind) != Some(SingleValued) ==> o == Fail(UnsupportedOperation) && Snapshot() == old(Snapshot())
    {
      if kind == Some(SingleValued) {
        singleValue := value;
        o := Pass;
      } else {
        o := Fail(UnsupportedOperation);
      }
    }

    method GetMultiValues() returns (r: Result<Option<StringList>>)
      ensures kind == Some(MultiValued) <==> r.Ok?
      ensures r.Ok? ==> r.value == multiValues
      ensures r.Err? ==> r.error == UnsupportedOperation
    {
      if kind == Some(MultiValued) {
        r := Ok(multiValues);
      } else {
        r := Err(UnsupportedOperation);
      }
    }

    method SetMultiValues(values: Option<StringList>) returns (o: Outcome)
      modifies this
      ensures old(kind) == Some(MultiValued) ==> o == Pass && Snapshot() == old(Snapshot()).(multi := values)
      ensures old(kind) != Some(MultiValued) ==> o == Fail(UnsupportedOperation) && Snapshot() == old(Snapshot())
    {
      if kind == Some(MultiValued) {
        multiValues := values;
        o := Pass;
      } else {
        o := Fail(UnsupportedOperation);
      }
    }

    /** `this.hasSameValue(userAttr)`. */
    method HasSameValue(userAttr: UserAttribute) returns (r: Result<bool>)
      ensures r == SameValue(userAttr.Snapshot(), Snapshot())
    {
      if userAttr.kind.None? {
        return Err(NullPointer);
      }
      if userAttr.kind == Some(SingleValued) {
        if kind.None? {
          return Err(NullPointer);
        }
        if kind != Some(SingleValued) {
          return Err(UnsupportedOperation);
        }
        var argValue, objValue := userAttr.singleValue, singleValue;
        if argValue.Some? && objValue.Some? {
          return Ok(argValue.value == objValue.value);
        } else if (argValue.None? && objValue.Some?) || (argValue.Some? && objValue.None?) {
          return Ok(false);
        } else {
          return Ok(true);
        }
      }
      if kind.None? {
        return Err(NullPointer);
      }
      if kind != Some(MultiValued) {
        return Err(UnsupportedOperation);
      }
      var result := true;
      var argMulti, objMulti := userAttr.multiValues, multiValues;
      if argMulti.Some? && objMulti.Some? {
        if |objMulti.value| == |argMulti.value| {
          var i := 0;
          while i < |argMulti.value|
            invariant 0 <= i <= |argMulti.value|
            invariant result
            invariant forall j :: 0 <= j < i ==> argMulti.value[j] in objMulti.value
          {
            if argMulti.value[i] !in objMulti.value {
              result := false;
              break;
            }
            i := i + 1;
          }
        } else {
          result := false;
        }
        return Ok(result);
      } else if (argMulti.None? && objMulti.Some?) || (argMulti.Some? && objMulti.None?) {
        return Ok(false);
      } else {
        return Ok(true);
      }
    }
  }
}
