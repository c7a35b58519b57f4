/** How `modifyUsers` turns users into modify requests: one modification
    item per attribute, in the user's attribute order, and one request per
    user, sent in list order until the first failure. */
module Modify {
  import opened Common
  import opened LinkedMaps
  import opened UserAttributes
  import opened Directory
  import opened Users

  /** ADD maps to add, SET to replace, CLEAR to remove. */
  function ModOpOf(op: AttributeOp): ModOp {
    match op
    case AddAttribute => ModAdd
    case SetAttribute => ModReplace
    case ClearAttribute => ModRemove
  }

  /** The op an item kind comes from. */
  function AttributeOpOf(m: ModOp): AttributeOp {
    match m
    case ModAdd => AddAttribute
    case ModReplace => SetAttribute
    case ModRemove => ClearAttribute
  }

  /** The mapping of ops to item kinds is one-to-one and onto. */
  lemma ModOpRoundTrip(op: AttributeOp, m: ModOp)
    ensures AttributeOpOf(ModOpOf(op)) == op
    ensures ModOpOf(AttributeOpOf(m)) == m
  {
  }

  /** The values a multi-valued attribute sends: its non-null values, each
      once, at its first occurrence (a `BasicAttribute` ignores a value it
      already holds). */
  function SentValues(vs: StringList): (r: seq<string>)
    ensures forall s :: s in r <==> Some(s) in vs
    ensures forall i, j :: 0 <= i < j < |r| ==> r[i] != r[j]
    decreases |vs|
  {
    if vs == [] then []
    else
      var init, last := SentValues(vs[..|vs| - 1]), vs[|vs| - 1];
      assert vs == vs[..|vs| - 1] + [last];
      if last.Some? && last.value !in init then init + [last.value] else init
  }

  /** The non-null values of a list, in list order. */
  function NonNull(vs: StringList): (r: seq<string>)
    ensures forall s :: s in r <==> Some(s) in vs
    decreases |vs|
  {
    if vs == [] then []
    else
      var last := vs[|vs| - 1];
      assert vs == vs[..|vs| - 1] + [last];
      NonNull(vs[..|vs| - 1]) + if last.Some? then [last.value] else []
  }

  /** The values sent are the non-null values in list order, each kept at
      its first occurrence. */
  lemma {:induction false} SentValuesInOrder(vs: StringList)
    ensures SentValues(vs) == Firsts(NonNull(vs))
    decreases |vs|
  {
    if vs != [] {
      var init, last := vs[..|vs| - 1], vs[|vs| - 1];
      SentValuesInOrder(init);
      var ns := NonNull(init);
      if last.Some? {
        var v := last.value;
        FirstsIsDedup(ns);
        assert NonNull(vs) == ns + [v];
        assert (ns + [v])[..|ns|] == ns && (ns + [v])[|ns|] == v;
        assert Firsts(ns + [v]) == Firsts(ns) + if v in ns then [] else [v];
        assert v in SentValues(init) <==> v in ns;
      } else {
        assert NonNull(vs) == ns;
      }
    }
  }

  /** Values without nulls or repeats are sent as they are, in order. */
  lemma {:induction false} SentValuesKeepsDistinct(vs: seq<string>)
    requires forall i, j :: 0 <= i < j < |vs| ==> vs[i] != vs[j]
    ensures SentValues(seq(|vs|, i requires 0 <= i < |vs| => Some(vs[i]))) == vs
    decreases |vs|
  {
    if vs != [] {
      var lifted := seq(|vs|, i requires 0 <= i < |vs| => Some(vs[i]));
      var init := vs[..|vs| - 1];
      assert lifted[..|vs| - 1] == seq(|init|, i requires 0 <= i < |init| => Some(init[i]));
      SentValuesKeepsDistinct(init);
      assert vs[|vs| - 1] !in init;
      assert vs == init + [vs[|vs| - 1]];
    }
  }

  /** The modification item for one attribute: a CLEAR removes the attribute
      whatever value the object holds; otherwise the values depend on the
      type, and an attribute without type has no item to send. */
  function Encode(a: AttrValue): Result<ModificationItem> {
    if a.op == ClearAttribute then Ok(ModificationItem(ModRemove, BasicAttribute(a.name, [])))
    else match a.kind
      case Some(SingleValued) =>
        Ok(ModificationItem(ModOpOf(a.op), BasicAttribute(a.name, if a.single.Some? then [a.single.value] else [])))
      case Some(MultiValued) =>
        Ok(ModificationItem(ModOpOf(a.op), BasicAttribute(a.name, if a.multi.Some? then SentValues(a.multi.value) else [])))
      case None => Err(IllegalArgument)
  }

  /** Every item names its attribute and has the kind of the attribute's op;
      encoding fails exactly for an untyped attribute that is not cleared. A
      single value is sent as the only value, a null one as none; a
      multi-valued attribute sends its non-null values in list order, each
      once, and a null list sends none. */
  lemma EncodeShape(a: AttrValue)
    ensures Encode(a).Err? <==> a.op != ClearAttribute && a.kind.None?
    ensures Encode(a).Err? ==> Encode(a).error == IllegalArgument
    ensures Encode(a).Ok? ==>
      var item := Encode(a).value;
      && item.attribute.id == a.name
      && AttributeOpOf(item.op) == a.op
      && (a.op == ClearAttribute ==> item.attribute.values == [])
      && (a.op != ClearAttribute && a.kind == Some(SingleValued) ==>
            (a.single.None? ==> item.attribute.values == []) && (a.single.Some? ==> item.attribute.values == [a.single.value]))
      && (a.op != ClearAttribute && a.kind == Some(MultiValued) ==>
            && (a.multi.None? ==> item.attribute.values == [])
            && (a.multi.Some? ==> item.attribute.values == Firsts(NonNull(a.multi.value)))
            && forall s :: s in item.attribute.values <==> a.multi.Some? && Some(s) in a.multi.value)
  {
    if a.multi.Some? {
      SentValuesInOrder(a.multi.value);
    }
  }

  /** A CLEAR item does not depend on the type or the values. */
  lemma ClearIgnoresValue(a: AttrValue, kind: Option<AttributeType>, single: Option<string>, multi: Option<StringList>)
    requires a.op == ClearAttribute
    ensures Encode(a) == Encode(a.(kind := kind, single := single, multi := multi))
    ensures Encode(a) == Ok(ModificationItem(ModRemove, BasicAttribute(a.name, [])))
  {
  }

  /** The items of one user, in attribute order; the first untyped
      attribute that is not cleared fails the user. */
  function EncodeAll(attrs: seq<AttrValue>): Result<seq<ModificationItem>>
    decreases |attrs|
  {
    if attrs == [] then Ok([])
    else
      match EncodeAll(attrs[..|attrs| - 1])
      case Err(x) => Err(x)
      case Ok(items) =>
        match Encode(attrs[|attrs| - 1])
        case Err(x) => Err(x)
        case Ok(item) => Ok(items + [item])
  }

  /** One more attribute extends the items of a prefix, or fails all
      attributes with its own error. */
  lemma EncodeAllStep(attrs: seq<AttrValue>, i: nat, items: seq<ModificationItem>, item: Result<ModificationItem>)
    requires i < |attrs| && EncodeAll(attrs[..i]) == Ok(items) && item == Encode(attrs[i])
    ensures item.Ok? ==> EncodeAll(attrs[..i + 1]) == Ok(items + [item.value])
    ensures item.Err? ==> EncodeAll(attrs) == Err(item.error)
  {
    assert attrs[..i + 1][..i] == attrs[..i];
    if item.Err? {
      EncodeAllPrefixFails(attrs, i + 1);
    }
  }

  /** A failing prefix of attributes fails the user with the same error. */
  lemma {:induction false} EncodeAllPrefixFails(attrs: seq<AttrValue>, k: nat)
    requires k <= |attrs| && EncodeAll(attrs[..k]).Err?
    ensures EncodeAll(attrs) == EncodeAll(attrs[..k])
    decreases |attrs| - k
  {
    if k < |attrs| {
      assert attrs[..k + 1][..k] == attrs[..k];
      EncodeAllPrefixFails(attrs, k + 1);
    } else {
      assert attrs[..k] == attrs;
    }
  }

  /** One item per attribute, each the attribute's own encoding. */
  lemma {:induction false} EncodeAllShape(attrs: seq<AttrValue>)
    ensures EncodeAll(attrs).Err? <==> exists i :: 0 <= i < |attrs| && Encode(attrs[i]).Err?
    ensures EncodeAll(attrs).Err? ==> EncodeAll(attrs).error == IllegalArgument
    ensures EncodeAll(attrs).Ok? ==>
      |EncodeAll(attrs).value| == |attrs| &&
      forall i :: 0 <= i < |attrs| ==> Encode(attrs[i]) == Ok(EncodeAll(attrs).value[i])
    decreases |attrs|
  {
    if attrs != [] {
      var init, last := attrs[..|attrs| - 1], attrs[|attrs| - 1];
      EncodeAllShape(init);
      EncodeShape(last);
      if EncodeAll(init).Err? {
        var i :| 0 <= i < |init| && Encode(init[i]).Err?;
        assert attrs[i] == init[i];
      }
      if EncodeAll(attrs).Ok? {
        forall i | 0 <= i < |attrs| ensures Encode(attrs[i]) == Ok(EncodeAll(attrs).value[i]) {
          if i < |init| { assert attrs[i] == init[i]; }
        }
      } else if exists i :: 0 <= i < |attrs| && Encode(attrs[i]).Err? {
        var i :| 0 <= i < |attrs| && Encode(attrs[i]).Err?;
        EncodeShape(attrs[i]);
      }
    }
  }

  /** The modify request of one user sent with request controls `controls`:
      its DN and the items of its attributes in insertion order. */
  function RequestOf(u: UserRecord, controls: seq<PageControl>): Result<ModifyCall>
    requires LinkedMaps.Valid(u.attributes)
  {
    match EncodeAll(Values(u.attributes))
    case Err(x) => Err(x)
    case Ok(items) => Ok(ModifyCall(u.dn, items, controls))
  }

  /** What sending the users' requests does: the requests sent, those the
      directory applied, the outcome, and the scripted outcomes left. */
  datatype ModifyRun = ModifyRun(attempted: seq<ModifyCall>, applied: seq<ModifyCall>, outcome: Outcome, left: seq<Outcome>)

  /** The directory's answer to the next modify request. */
  function NextOutcome(outcomes: seq<Outcome>): Outcome {
    if outcomes == [] then Fail(Communication) else outcomes[0]
  }

  function Rest(outcomes: seq<Outcome>): seq<Outcome> {
    if outcomes == [] then [] else outcomes[1..]
  }

  /** The request of every user, sent with request controls `controls`, in
      list order. */
  function Requests(users: seq<UserRecord>, controls: seq<PageControl>): (rs: seq<Result<ModifyCall>>)
    requires forall i :: 0 <= i < |users| ==> LinkedMaps.Valid(users[i].attributes)
    ensures |rs| == |users|
    decreases |users|
  {
    if users == [] then [] else Requests(users[..|users| - 1], controls) + [RequestOf(users[|users| - 1], controls)]
  }

  /** User `i` gives the `i`-th request. */
  lemma {:induction false} RequestsAt(users: seq<UserRecord>, controls: seq<PageControl>)
    requires forall i :: 0 <= i < |users| ==> LinkedMaps.Valid(users[i].attributes)
    ensures forall i :: 0 <= i < |users| ==> Requests(users, controls)[i] == RequestOf(users[i], controls)
    decreases |users|
  {
    if users != [] {
      var init := users[..|users| - 1];
      RequestsAt(init, controls);
      forall i | 0 <= i < |users| ensures Requests(users, controls)[i] == RequestOf(users[i], controls) {
        if i < |init| { assert users[i] == init[i]; }
      }
    }
  }

  /** User `i` gives the `i`-th request. */
  lemma RequestAt(users: seq<UserRecord>, controls: seq<PageControl>, i: nat)
    requires forall j :: 0 <= j < |users| ==> LinkedMaps.Valid(users[j].attributes)
    requires i < |users|
    ensures Requests(users, controls)[i] == RequestOf(users[i], controls)
  {
    RequestsAt(users, controls);
  }

  /** The requests in list order; a request that could not be built is
      never sent, and the first failure ends the run without undoing the
      requests already applied. */
  function Run(reqs: seq<Result<ModifyCall>>, outcomes: seq<Outcome>): ModifyRun
    decreases |reqs|
  {
    if reqs == [] then ModifyRun([], [], Pass, outcomes)
    else match reqs[0]
      case Err(x) => ModifyRun([], [], Fail(x), outcomes)
      case Ok(call) =>
        if NextOutcome(outcomes).Fail? then ModifyRun([call], [], NextOutcome(outcomes), Rest(outcomes))
        else
          var rest := Run(reqs[1..], Rest(outcomes));
          ModifyRun([call] + rest.attempted, [call] + rest.applied, rest.outcome, rest.left)
  }

  /** `modifyUsers` on the users' values, on a context whose request controls
      are `controls`. */
  function ModifyAll(users: seq<UserRecord>, outcomes: seq<Outcome>, controls: seq<PageControl>): ModifyRun
    requires forall i :: 0 <= i < |users| ==> LinkedMaps.Valid(users[i].attributes)
  {
    Run(Requests(users, controls), outcomes)
  }

  /** A run seen after the requests `done` already applied. */
  function AfterApplied(done: seq<ModifyCall>, run: ModifyRun): ModifyRun {
    ModifyRun(done + run.attempted, done + run.applied, run.outcome, run.left)
  }

  /** The run from request `i` on: the run over the requests not yet sent. */
  function RunFrom(reqs: seq<Result<ModifyCall>>, i: nat, outcomes: seq<Outcome>): ModifyRun
    requires i <= |reqs|
    decreases |reqs| - i
  {
    if i == |reqs| then ModifyRun([], [], Pass, outcomes)
    else match reqs[i]
      case Err(x) => ModifyRun([], [], Fail(x), outcomes)
      case Ok(call) =>
        if NextOutcome(outcomes).Fail? then ModifyRun([call], [], NextOutcome(outcomes), Rest(outcomes))
        else
          var rest := RunFrom(reqs, i + 1, Rest(outcomes));
          ModifyRun([call] + rest.attempted, [call] + rest.applied, rest.outcome, rest.left)
  }

  /** The run from request `i` on is the run over the remaining requests. */
  lemma {:induction false} RunFromSuffix(reqs: seq<Result<ModifyCall>>, i: nat, outcomes: seq<Outcome>)
    requires i <= |reqs|
    ensures RunFrom(reqs, i, outcomes) == Run(reqs[i..], outcomes)
    decreases |reqs| - i
  {
    if i < |reqs| {
      RunFromSuffix(reqs, i + 1, Rest(outcomes));
      assert reqs[i..][0] == reqs[i] && reqs[i..][1..] == reqs[i + 1..];
    }
  }

  /** The whole run, seen from its first request. */
  lemma RunFromStart(reqs: seq<Result<ModifyCall>>, outcomes: seq<Outcome>)
    ensures RunFrom(reqs, 0, outcomes) == Run(reqs, outcomes)
  {
    RunFromSuffix(reqs, 0, outcomes);
    assert reqs[0..] == reqs;
  }

  /** One more request applied, seen from the requests already done. */
  lemma ModifyStep(done: seq<ModifyCall>, reqs: seq<Result<ModifyCall>>, i: nat, outcomes: seq<Outcome>)
    requires i < |reqs| && reqs[i].Ok? && NextOutcome(outcomes).Pass?
    ensures AfterApplied(done, RunFrom(reqs, i, outcomes)) == AfterApplied(done + [reqs[i].value], RunFrom(reqs, i + 1, Rest(outcomes)))
  {
    var call := reqs[i].value;
    var rest := RunFrom(reqs, i + 1, Rest(outcomes));
    assert done + ([call] + rest.attempted) == (done + [call]) + rest.attempted;
    assert done + ([call] + rest.applied) == (done + [call]) + rest.applied;
  }

  /** The first `n` requests were applied, each with a passing outcome; the
      run passes exactly when every request was applied, and then nothing
      else was sent. */
  lemma {:induction false} RunApplied(reqs: seq<Result<ModifyCall>>, outcomes: seq<Outcome>)
    ensures var run := Run(reqs, outcomes);
      var n := |run.applied|;
      && n <= |reqs| && n <= |outcomes|
      && (forall i :: 0 <= i < n ==> reqs[i] == Ok(run.applied[i]) && outcomes[i] == Pass)
      && (run.outcome.Pass? <==> n == |reqs|)
      && (run.outcome.Pass? ==> run.attempted == run.applied && run.left == outcomes[n..])
    decreases |reqs|
  {
    if reqs != [] && reqs[0].Ok? && NextOutcome(outcomes).Pass? {
      RunApplied(reqs[1..], outcomes[1..]);
      var run, rest := Run(reqs, outcomes), Run(reqs[1..], outcomes[1..]);
      var n := |run.applied|;
      assert run.applied == [reqs[0].value] + rest.applied;
      forall i | 0 <= i < n ensures reqs[i] == Ok(run.applied[i]) && outcomes[i] == Pass {
        if i > 0 { assert reqs[i] == reqs[1..][i - 1] && outcomes[i] == outcomes[1..][i - 1]; }
      }
      assert outcomes[n..] == outcomes[1..][n - 1..];
    }
  }

  /** A failing run stopped at request `n`, the number applied: either it
      could not be built and nothing more was sent, or it was sent and the
      directory's answer to it is the failure. */
  lemma {:induction false} RunStops(reqs: seq<Result<ModifyCall>>, outcomes: seq<Outcome>)
    ensures var run := Run(reqs, outcomes);
      var n := |run.applied|;
      && n <= |outcomes|
      && (run.outcome.Fail? ==>
        && n < |reqs|
        && if reqs[n].Err? then
             run.attempted == run.applied && run.outcome.error == reqs[n].error && run.left == outcomes[n..]
           else
             && run.attempted == run.applied + [reqs[n].value]
             && run.outcome == NextOutcome(outcomes[n..])
             && run.left == Rest(outcomes[n..]))
    decreases |reqs|
  {
    if reqs != [] && reqs[0].Ok? && NextOutcome(outcomes).Pass? {
      RunStops(reqs[1..], outcomes[1..]);
      var run, rest := Run(reqs, outcomes), Run(reqs[1..], outcomes[1..]);
      var n := |run.applied|;
      assert run.applied == [reqs[0].value] + rest.applied;
      if run.outcome.Fail? {
        assert reqs[n] == reqs[1..][n - 1];
        assert outcomes[n..] == outcomes[1..][n - 1..];
      }
    }
  }

  /** `modifyUsers` as its users see it: the first `n` users were applied,
      each with its own request and a passing outcome; the run passes exactly
      when every user was applied; a failing run stopped at user `n`, whose
      request either could not be built (nothing more was sent) or was sent
      and refused. */
  lemma ModifyAllShape(users: seq<UserRecord>, outcomes: seq<Outcome>, controls: seq<PageControl>)
    requires forall i :: 0 <= i < |users| ==> LinkedMaps.Valid(users[i].attributes)
    ensures var run := ModifyAll(users, outcomes, controls);
      var n := |run.applied|;
      && n <= |users| && n <= |outcomes|
      && (forall i :: 0 <= i < n ==> RequestOf(users[i], controls) == Ok(run.applied[i]) && outcomes[i] == Pass)
      && (run.outcome.Pass? <==> n == |users|)
      && (run.outcome.Pass? ==> run.attempted == run.applied && run.left == outcomes[n..])
      && (run.outcome.Fail? ==>
            if RequestOf(users[n], controls).Err? then
              run.attempted == run.applied && run.outcome.error == RequestOf(users[n], controls).error && run.left == outcomes[n..]
            else
              && run.attempted == run.applied + [RequestOf(users[n], controls).value]
              && run.outcome == NextOutcome(outcomes[n..])
              && run.left == Rest(outcomes[n..]))
  {
    RequestsAt(users, controls);
    RunApplied(Requests(users, controls), outcomes);
    RunStops(Requests(users, controls), outcomes);
  }

  /** Sending one user is the run over the one-user list. */
  lemma ModifyOne(u: UserRecord, outcomes: seq<Outcome>, controls: seq<PageControl>)
    requires LinkedMaps.Valid(u.attributes)
    ensures var run := ModifyAll([u], outcomes, controls);
      && (RequestOf(u, controls).Err? ==> run == ModifyRun([], [], Fail(RequestOf(u, controls).error), outcomes))
      && (RequestOf(u, controls).Ok? ==>
            run.attempted == [RequestOf(u, controls).value] && run.outcome == NextOutcome(outcomes) && run.left == Rest(outcomes)
            && run.applied == if run.outcome.Pass? then run.attempted else [])
  {
    var reqs := Requests([u], controls);
    assert [u][..0] == [];
    assert reqs == [RequestOf(u, controls)] && reqs[1..] == [];
    if RequestOf(u, controls).Ok? && NextOutcome(outcomes).Pass? {
      var call := RequestOf(u, controls).value;
      assert Run(reqs[1..], Rest(outcomes)) == ModifyRun([], [], Pass, Rest(outcomes));
      assert [call] + [] == [call];
    }
  }

  /** A user without attributes still gets a request, with no items. */
  lemma EmptyUserRequest(dn: string, friendlyName: string, controls: seq<PageControl>)
    ensures RequestOf(UserRecord(dn, friendlyName, Empty()), controls) == Ok(ModifyCall(dn, [], controls))
  {
  }
}
