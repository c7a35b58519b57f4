/** Values shared by every module of the model: Java's null as Option, and the
    exceptions the library throws, as a Result the callers can inspect. */
module Common {

  /** A Java reference that may be null. */
  datatype Option<+T> = None | Some(value: T)

  /** The exceptions the modelled code can raise. */
  datatype Exception =
    | UnsupportedOperation    // java.lang.UnsupportedOperationException (arity mismatch)
    | NullPointer             // java.lang.NullPointerException
    | StringIndexOutOfBounds  // String.substring with bad bounds
    | IllegalArgument         // ModificationItem built without an attribute
    | NoSuchElement           // Attribute.get() on an attribute without values
    | Naming(resultCode: nat) // a NamingException reported by the directory
    | Communication           // the connection to the directory is gone

  /** A call that returns a value or throws. */
  datatype Result<+T> = Ok(value: T) | Err(error: Exception)

  /** A void call that returns normally or throws. */
  datatype Outcome = Pass | Fail(error: Exception)

  /** Calls made in order, each returning a value or throwing: the values in
      order, or the first exception thrown. */
  function Collect<T>(rs: seq<Result<T>>): Result<seq<T>>
    decreases |rs|
  {
    if rs == [] then Ok([])
    else
      match Collect(rs[..|rs| - 1])
      case Err(x) => Err(x)
      case Ok(init) =>
        match rs[|rs| - 1]
        case Err(x) => Err(x)
        case Ok(v) => Ok(init + [v])
  }

  /** The calls fail exactly when one of them does, and then with the
      exception of the first one that does. */
  lemma {:induction false} CollectFails<T>(rs: seq<Result<T>>)
    ensures Collect(rs).Err? <==> exists i :: 0 <= i < |rs| && rs[i].Err?
    ensures Collect(rs).Err? ==>
      exists i :: 0 <= i < |rs| && rs[i] == Err(Collect(rs).error) && forall j :: 0 <= j < i ==> rs[j].Ok?
    decreases |rs|
  {
    if rs != [] {
      var init := rs[..|rs| - 1];
      CollectFails(init);
      if Collect(init).Err? {
        var i :| 0 <= i < |init| && init[i] == Err(Collect(init).error) && forall j :: 0 <= j < i ==> init[j].Ok?;
        assert rs[i] == init[i];
        assert forall j :: 0 <= j < i ==> rs[j] == init[j];
      } else if rs[|rs| - 1].Err? {
        assert forall j :: 0 <= j < |rs| - 1 ==> rs[j] == init[j];
      } else {
        forall i | 0 <= i < |rs| ensures rs[i].Ok? {
          if i < |init| { assert rs[i] == init[i]; }
        }
      }
    }
  }

  /** Otherwise there is one value per call, in call order. */
  lemma {:induction false} CollectShape<T>(rs: seq<Result<T>>)
    requires Collect(rs).Ok?
    ensures |Collect(rs).value| == |rs| && forall i :: 0 <= i < |rs| ==> rs[i] == Ok(Collect(rs).value[i])
    decreases |rs|
  {
    if rs != [] {
      var init := rs[..|rs| - 1];
      CollectShape(init);
      var vs, rest := Collect(rs).value, Collect(init).value;
      assert vs == rest + [vs[|vs| - 1]];
      forall i | 0 <= i < |rs| ensures rs[i] == Ok(vs[i]) {
        if i < |init| { assert rs[i] == init[i] && vs[i] == rest[i]; }
      }
    }
  }

  /** Once a prefix of the calls has thrown, the later calls change nothing. */
  lemma {:induction false} CollectPrefixFails<T>(rs: seq<Result<T>>, k: nat)
    requires k <= |rs| && Collect(rs[..k]).Err?
    ensures Collect(rs) == Collect(rs[..k])
    decreases |rs| - k
  {
    if k < |rs| {
      assert rs[..k + 1][..k] == rs[..k];
      CollectPrefixFails(rs, k + 1);
    } else {
      assert rs[..k] == rs;
    }
  }

  /** One more call extends the values of a prefix, or fails all the calls
      with its own exception. */
  lemma CollectStep<T>(rs: seq<Result<T>>, i: nat, vs: seq<T>)
    requires i < |rs| && Collect(rs[..i]) == Ok(vs)
    ensures rs[i].Ok? ==> Collect(rs[..i + 1]) == Ok(vs + [rs[i].value])
    ensures rs[i].Err? ==> Collect(rs) == Err(rs[i].error)
  {
    assert rs[..i + 1][..i] == rs[..i];
    if rs[i].Err? {
      CollectPrefixFails(rs, i + 1);
    }
  }
}
