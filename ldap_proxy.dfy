/** The client of a directory: it reads users with their requested
    attributes through a plain or a paged search, and writes users back as
    one modify request each. */
module Proxy {
  import opened Common
  import opened LinkedMaps
  import opened UserAttributes
  import opened Users
  import opened Directory
  import opened Paging
  import opened Records
  import opened Modify

  /** The search requests of a paged run: one per round, with that round's control. */
  function CallsOf(query: Query, sent: seq<PageControl>): (cs: seq<SearchCall>)
    ensures |cs| == |sent| && forall i :: 0 <= i < |sent| ==> cs[i] == SearchCall(query, [sent[i]])
  {
    seq(|sent|, i requires 0 <= i < |sent| => SearchCall(query, [sent[i]]))
  }

  /** The values of the requested attributes; null stays null. */
  function RequestValues(reqs: Option<seq<UserAttribute>>): Option<seq<AttrValue>>
    reads if reqs.Some? then reqs.value else []
  {
    if reqs.Some? then Some(SnapshotsOf(reqs.value)) else None
  }

  function AttributeValue(a: Option<UserAttribute>): Option<AttrValue>
    reads if a.Some? then {a.value} else {}
  {
    if a.Some? then Some(a.value.Snapshot()) else None
  }

  /** The values of a list of users. */
  ghost function RecordsOf(users: seq<User>): (rs: seq<UserRecord>)
    reads users, AttributeObjects(users)
    ensures |rs| == |users|
  {
    if users == [] then [] else RecordsOf(users[..|users| - 1]) + [users[|users| - 1].Record()]
  }

  /** The attribute objects held by a list of users. */
  ghost function AttributeObjects(users: seq<User>): set<UserAttribute>
    reads users
  {
    set u, a | u in users && a in u.attributes.m.Values :: a
  }

  /** The value of each user of the list, in list order. */
  lemma {:induction false} RecordsOfEach(users: seq<User>)
    ensures forall i :: 0 <= i < |users| ==> RecordsOf(users)[i] == users[i].Record()
    decreases |users|
  {
    if users != [] {
      var init := users[..|users| - 1];
      RecordsOfEach(init);
      forall i | 0 <= i < |users| ensures RecordsOf(users)[i] == users[i].Record() {
        if i < |init| { assert users[i] == init[i]; }
      }
    }
  }

  /** Multi-valued attribute values as the `while (hasMore())` loop copies them. */
  method CollectValues(values: seq<string>) returns (r: StringList)
    ensures r == Lift(values)
  {
    r := [];
    var i := 0;
    while i < |values|
      invariant 0 <= i <= |values|
      invariant |r| == i && forall j :: 0 <= j < i ==> r[j] == Some(values[j])
    {
      r := r + [Some(values[i])];
      i := i + 1;
    }
  }

  /** The loop adding each non-null value to a `BasicAttribute`, which keeps
      one copy of each value. */
  method AddValues(vs: StringList) returns (values: seq<string>)
    ensures values == SentValues(vs)
  {
    values := [];
    for i := 0 to |vs|
      invariant values == SentValues(vs[..i])
    {
      assert vs[..i + 1][..i] == vs[..i];
      if vs[i].Some? && vs[i].value !in values {
        values := values + [vs[i].value];
      }
    }
    assert vs[..|vs|] == vs;
  }

  /** The modification item for one attribute object. */
  method EncodeAttribute(a: UserAttribute) returns (r: Result<ModificationItem>)
    ensures r == Encode(a.Snapshot())
  {
    var op := a.op;
    var basic: Option<BasicAttribute> := None;
    if op != ClearAttribute {
      if a.kind == Some(SingleValued) {
        var value := a.singleValue;
        if value.None? {
          basic := Some(BasicAttribute(a.name, []));
        } else {
          basic := Some(BasicAttribute(a.name, [value.value]));
        }
      } else if a.kind == Some(MultiValued) {
        var values := a.multiValues;
        var sent: seq<string> := [];
        if values.Some? {
          sent := AddValues(values.value);
        }
        basic := Some(BasicAttribute(a.name, sent));
      }
    } else {
      basic := Some(BasicAttribute(a.name, []));
    }
    if basic.None? {
      return Err(IllegalArgument);
    }
    r := Ok(ModificationItem(ModOpOf(op), basic.value));
  }

  /** The items of a list of attribute objects, in list order. */
  method EncodeList(list: seq<UserAttribute>) returns (r: Result<seq<ModificationItem>>)
    ensures r == EncodeAll(SnapshotsOf(list))
  {
    ghost var vals := SnapshotsOf(list);
    var items: seq<ModificationItem> := [];
    for i := 0 to |list|
      invariant vals == SnapshotsOf(list)
      invariant EncodeAll(vals[..i]) == Ok(items)
    {
      var item := EncodeAttribute(list[i]);
      ghost var value := list[i].Snapshot();
      assert value == vals[i];
      EncodeAllStep(vals, i, items, item);
      if item.Err? {
        return Err(item.error);
      }
      items := items + [item.value];
    }
    assert vals[..|list|] == vals;
    r := Ok(items);
  }

  /** The items of one user, in the order of its attribute list. */
  method EncodeUser(u: User) returns (r: Result<seq<ModificationItem>>)
    requires u.Valid()
    ensures r == EncodeAll(Values(u.Record().attributes))
  {
    var list := u.GetUserAttributes();
    ValuesOfSnapshots(u.attributes);
    assert SnapshotsOf(list) == Values(u.Record().attributes) by {
      assert u.Record().attributes == Snapshots(u.attributes);
    }
    r := EncodeList(list);
  }

  /** The attribute object built from an entry for one requested attribute;
      an untyped request builds none. */
  method ExtractOne(e: Entry, req: UserAttribute, ghost value: AttrValue) returns (r: Result<Option<UserAttribute>>)
    requires req.Snapshot() == value
    ensures r.Err? <==> Extract(e, value).Err?
    ensures r.Err? ==> r.error == Extract(e, value).error
    ensures r.Ok? ==> (r.value.Some? <==> Extract(e, value).value.Some?)
    ensures r.Ok? && r.value.Some? ==>
      fresh(r.value.value) && r.value.value.Snapshot() == Extract(e, value).value.value
  {
    var name, kind := req.name, req.kind;
    if kind == Some(SingleValued) {
      var value := FirstValue(e, name);
      if value.Err? {
        return Err(value.error);
      }
      var a := new UserAttribute.Single(name, value.value, []);
      r := Ok(Some(a));
    } else if kind == Some(MultiValued) {
      var values: Option<StringList>;
      if name in e.attributes {
        var collected := CollectValues(e.attributes[name]);
        values := Some(collected);
      } else {
        values := None;
      }
      var a := new UserAttribute.Multi(name, values, []);
      r := Ok(Some(a));
    } else {
      r := Ok(None);
    }
  }

  /** The attribute objects built from an entry for the requested attributes. */
  method ExtractAttributes(e: Entry, reqs: seq<UserAttribute>) returns (r: Result<seq<UserAttribute>>)
    ensures r.Err? <==> ExtractAll(e, SnapshotsOf(reqs)).Err?
    ensures r.Err? ==> r.error == ExtractAll(e, SnapshotsOf(reqs)).error
    ensures r.Ok? ==> SnapshotsOf(r.value) == ExtractAll(e, SnapshotsOf(reqs)).value
  {
    ghost var vals := SnapshotsOf(reqs);
    var list: seq<UserAttribute> := [];
    for i := 0 to |reqs|
      invariant vals == SnapshotsOf(reqs)
      invariant ExtractAll(e, vals[..i]) == Ok(SnapshotsOf(list))
    {
      ghost var value := reqs[i].Snapshot();
      assert value == vals[i];
      ghost var done := SnapshotsOf(list);
      var built := ExtractOne(e, reqs[i], value);
      assert SnapshotsOf(list) == done;
      ExtractAllStep(e, vals, i, done, Extract(e, value));
      if built.Err? {
        return Err(built.error);
      }
      if built.value.Some? {
        var a := built.value.value;
        assert (list + [a])[..|list|] == list;
        assert SnapshotsOf(list + [a]) == done + [a.Snapshot()];
        list := list + [a];
      } else {
        assert done + [] == done;
      }
    }
    assert vals[..|reqs|] == vals;
    r := Ok(list);
  }

  /** The friendly name before lower-casing, as `getUsers` reads it. */
  method ReadFriendlyName(e: Entry, fna: Option<UserAttribute>) returns (r: Result<Option<string>>)
    ensures r == RawFriendlyName(e, AttributeValue(fna))
  {
    if fna.None? {
      var fromDn := DnFriendlyName(e.dn);
      if fromDn.Err? {
        return Err(fromDn.error);
      }
      r := Ok(Some(fromDn.value));
    } else {
      r := FirstValue(e, fna.value.name);
    }
  }

  /** The value of the map the list constructor builds is the map built from
      the objects' values. */
  lemma SnapshotsOfList(list: seq<UserAttribute>)
    ensures Snapshots(PutAll(Empty(), NamesOf(list), list)) ==
      PutAll(Empty(), NamesOfValues(SnapshotsOf(list)), SnapshotsOf(list))
  {
    assert NamesOf(list) == NamesOfValues(SnapshotsOf(list));
    SnapshotsOfPutAll(NamesOf(list), list, SnapshotsOf(list));
  }

  /** The user object for a DN, a friendly name as read and the attribute
      objects as built. */
  method AssembleUser(dn: string, name: Result<Option<string>>, list: Option<Result<seq<UserAttribute>>>) returns (r: Result<User>)
    ensures var attrs := if list.Some? then Some(if list.value.Ok? then Ok(SnapshotsOf(list.value.value)) else Err(list.value.error)) else None;
      var expected := Assemble(dn, name, attrs);
      && (r.Err? <==> expected.Err?)
      && (r.Err? ==> r.error == expected.error)
      && (r.Ok? ==> fresh(r.value) && r.value.Valid() && r.value.Record() == expected.value)
  {
    if name.Err? {
      return Err(name.error);
    }
    if list.Some? && list.value.Err? {
      return Err(list.value.error);
    }
    if name.value.None? {
      return Err(NullPointer);
    }
    if list.Some? {
      var u := new User.WithAttributes(dn, ToLower(name.value.value), list.value.value);
      SnapshotsOfList(list.value.value);
      r := Ok(u);
    } else {
      var u := new User(dn, ToLower(name.value.value));
      assert Snapshots(u.attributes).m == map[];
      r := Ok(u);
    }
  }

  /** The user built from one entry. */
  method BuildUser(e: Entry, reqs: Option<seq<UserAttribute>>, fna: Option<UserAttribute>, ghost x: Result<UserRecord>)
    returns (r: Result<User>)
    requires x == BuildRecord(e, RequestValues(reqs), AttributeValue(fna))
    ensures r.Err? <==> x.Err?
    ensures r.Err? ==> r.error == x.error
    ensures r.Ok? ==> fresh(r.value) && r.value.Valid() && r.value.Record() == x.value
  {
    var friendlyName := ReadFriendlyName(e, fna);
    if friendlyName.Err? {
      return Err(friendlyName.error);
    }
    var list: Option<Result<seq<UserAttribute>>> := None;
    if reqs.Some? {
      var built := ExtractAttributes(e, reqs.value);
      list := Some(built);
    }
    r := AssembleUser(e.dn, friendlyName, list);
  }

  /** A user whose object and attribute objects were left alone keeps its value. */
  twostate lemma RecordUnchanged(u: User)
    requires unchanged(u) && unchanged(old(u.attributes.m.Values))
    ensures u.Valid() == old(u.Valid()) && u.Record() == old(u.Record())
  {
  }

  /** Users allocated before a step that changed no allocated object keep their values. */
  twostate lemma RecordsOfKept(users: seq<User>)
    requires unchanged(users) && unchanged(old(AttributeObjects(users)))
    ensures RecordsOf(users) == old(RecordsOf(users)) && (AllValid(users) <==> old(AllValid(users)))
    decreases |users|
  {
    if users != [] {
      var init, last := users[..|users| - 1], users[|users| - 1];
      RecordsOfKept(init);
      RecordUnchanged(last);
      assert users == init + [last];
      RecordsOfSnoc(init, last);
    }
  }

  /** One more user extends the values of a list of users. */
  lemma RecordsOfSnoc(users: seq<User>, u: User)
    ensures RecordsOf(users + [u]) == RecordsOf(users) + [u.Record()]
    ensures AllValid(users + [u]) <==> AllValid(users) && u.Valid()
  {
    assert (users + [u])[..|users|] == users;
  }

  /** Every user of the list keeps its invariant. */
  ghost predicate AllValid(users: seq<User>)
    reads users
  {
    forall i :: 0 <= i < |users| ==> users[i].Valid()
  }

  /** One round of the loop over the entries found: the user of entry `i`,
      which joins the users of the entries before it, or its failure, which
      fails them all. */
  method BuildStep(entries: seq<Entry>, i: nat, reqs: Option<seq<UserAttribute>>, fna: Option<UserAttribute>,
                   ghost vals: Option<seq<AttrValue>>, ghost fnaVal: Option<AttrValue>,
                   ghost built: seq<Result<UserRecord>>, ghost users: seq<User>, ghost recs: seq<UserRecord>)
    returns (r: Result<User>, ghost rec: UserRecord)
    requires vals == RequestValues(reqs) && fnaVal == AttributeValue(fna)
    requires i < |entries| && built == EntryRecords(entries, vals, fnaVal)
    requires Collect(built[..i]) == Ok(recs) && RecordsOf(users) == recs && AllValid(users)
    ensures r.Err? ==> Collect(built) == Err(r.error)
    ensures r.Ok? ==>
      && Collect(built[..i + 1]) == Ok(recs + [rec])
      && RecordsOf(users + [r.value]) == recs + [rec] && AllValid(users + [r.value])
  {
    EntryRecordsAt(entries, vals, fnaVal);
    CollectStep(built, i, recs);
    rec := UserRecord(entries[i].dn, "", Empty());
    r := BuildUser(entries[i], reqs, fna, built[i]);
    RecordsOfKept(users);
    if r.Ok? {
      rec := r.value.Record();
      RecordsOfSnoc(users, r.value);
    }
  }

  /** The loop over the entries found: one user per entry, in entry
      order, and whether any entry was seen; `built` is what each entry's
      user is. */
  method BuildLoop(entries: seq<Entry>, reqs: Option<seq<UserAttribute>>, fna: Option<UserAttribute>,
                   ghost vals: Option<seq<AttrValue>>, ghost fnaVal: Option<AttrValue>, ghost built: seq<Result<UserRecord>>)
    returns (r: Result<seq<User>>, hasFoundUsers: bool)
    requires vals == RequestValues(reqs) && fnaVal == AttributeValue(fna)
    requires built == EntryRecords(entries, vals, fnaVal)
    ensures r.Err? <==> Collect(built).Err?
    ensures r.Err? ==> r.error == Collect(built).error
    ensures r.Ok? ==>
      && (hasFoundUsers <==> entries != [])
      && RecordsOf(r.value) == Collect(built).value
      && AllValid(r.value)
  {
    ghost var recs: seq<UserRecord> := [];
    var users: seq<User> := [];
    hasFoundUsers := false;
    for i := 0 to |entries|
      invariant hasFoundUsers <==> i > 0
      invariant Collect(built[..i]) == Ok(recs)
      invariant |users| == i && RecordsOf(users) == recs && AllValid(users)
    {
      var next;
      ghost var rec;
      next, rec := BuildStep(entries, i, reqs, fna, vals, fnaVal, built, users, recs);
      if next.Err? {
        return Err(next.error), hasFoundUsers;
      }
      hasFoundUsers := true;
      users := users + [next.value];
      recs := recs + [rec];
    }
    assert built[..|entries|] == built;
    r := Ok(users);
  }

  /** `getUsers` over the entries found, before the null-for-none rule. */
  method BuildEach(entries: seq<Entry>, reqs: Option<seq<UserAttribute>>, fna: Option<UserAttribute>)
    returns (r: Result<seq<User>>, hasFoundUsers: bool)
    ensures var expected := BuildRecords(entries, RequestValues(reqs), AttributeValue(fna));
      && (r.Err? <==> expected.Err?)
      && (r.Err? ==> r.error == expected.error)
      && (r.Ok? ==>
            && (hasFoundUsers <==> entries != [])
            && RecordsOf(r.value) == expected.value
            && AllValid(r.value))
  {
    ghost var vals, fnaVal := RequestValues(reqs), AttributeValue(fna);
    r, hasFoundUsers := BuildLoop(entries, reqs, fna, vals, fnaVal, EntryRecords(entries, vals, fnaVal));
  }

  /** `getUsers` after the search: null when no entry was found, never an
      empty list; else one user per entry, in entry order. */
  method BuildUsers(entries: seq<Entry>, reqs: Option<seq<UserAttribute>>, fna: Option<UserAttribute>)
    returns (r: Result<Option<seq<User>>>)
    ensures var expected := UsersOf(entries, RequestValues(reqs), AttributeValue(fna));
      && (r.Err? <==> expected.Err?)
      && (r.Err? ==> r.error == expected.error)
      && (r.Ok? ==> (r.value.None? <==> expected.value.None?))
      && (r.Ok? && r.value.Some? ==>
            && r.value.value != []
            && RecordsOf(r.value.value) == expected.value.value
            && AllValid(r.value.value))
  {
    var users, hasFoundUsers := BuildEach(entries, reqs, fna);
    if users.Err? {
      return Err(users.error);
    }
    if hasFoundUsers {
      r := Ok(Some(users.value));
    } else {
      r := Ok(None);
    }
  }

  class LdapProxy {
    var url: string
    var distinguishedName: string
    var password: string
    var searchLimit: int
    var isPagedSearch: bool
    var ctx: Session?

    /** A client not yet connected; a search limit of 0 means plain searches,
        any other limit paged searches with that page size. */
    constructor (url: string, distinguishedName: string, password: string, searchLimit: int)
      ensures this.url == url && this.distinguishedName == distinguishedName && this.password == password
      ensures ctx == null
      ensures isPagedSearch <==> searchLimit != 0
      ensures isPagedSearch ==> this.searchLimit == searchLimit
    {
      this.url := url;
      this.distinguishedName := distinguishedName;
      this.password := password;
      ctx := null;
      if searchLimit == 0 {
        isPagedSearch := false;
      } else {
        isPagedSearch := true;
        this.searchLimit := searchLimit;
      }
    }

    /** `openLdapConnection`: the context becomes the given session. */
    method OpenLdapConnection(session: Session)
      modifies this
      ensures ctx == session
      ensures url == old(url) && distinguishedName == old(distinguishedName) && password == old(password)
      ensures searchLimit == old(searchLimit) && isPagedSearch == old(isPagedSearch)
    {
      ctx := session;
    }

    /** What a search yields from the directory's replies: the paged run's
        result, or the first reply of a plain search. */
    function SearchResult(replies: seq<Reply>): Result<seq<Entry>>
      reads this
    {
      if isPagedSearch then PagedLoop(replies, FirstControl(searchLimit)).result
      else if replies == [] then Err(Communication)
      else match replies[0]
        case Refused(x) => Err(x)
        case Page(entries, _) => Ok(entries)
    }

    /** One round of the paged loop: search with `control`, read the cookie
        from the response controls, and set the next control. `run` is the
        whole loop, of which the rounds `sent`, yielding `entries`, are done;
        `replies0` and `searches0` are the script and the log before the loop.
        When the round stops the loop, `r` is the loop's result; otherwise it
        holds the entries so far and `next` is the control of the next round. */
    method PageRound(query: Query, entries: seq<Entry>, control: PageControl,
                     ghost sent: seq<PageControl>, ghost replies0: seq<Reply>, ghost searches0: seq<SearchCall>, ghost run: PagedRun)
      returns (stop: bool, r: Result<seq<Entry>>, next: PageControl)
      requires ctx != null && control.pageSize == searchLimit && ctx.requestControls == [control]
      requires |sent| <= |replies0| && ctx.replies == replies0[|sent|..]
      requires ctx.searches == searches0 + CallsOf(query, sent)
      requires Paging.AfterRounds(entries, sent, PagedLoop(ctx.replies, control)) == run
      modifies ctx
      ensures ctx.modifyOutcomes == old(ctx.modifyOutcomes) && ctx.attempted == old(ctx.attempted) && ctx.applied == old(ctx.applied)
      ensures stop ==>
        && r == run.result
        && ctx.searches == searches0 + CallsOf(query, run.sent)
        && ctx.replies == replies0[Consumed(replies0, run)..]
        && ctx.requestControls == [run.left]
        && ctx.responseControls == run.response
      ensures !stop ==>
        && r.Ok? && next.pageSize == searchLimit && ctx.requestControls == [next]
        && |sent| + 1 <= |replies0| && ctx.replies == replies0[|sent| + 1..]
        && ctx.searches == searches0 + CallsOf(query, sent + [control])
        && Paging.AfterRounds(r.value, sent + [control], PagedLoop(ctx.replies, next)) == run
    {
      ghost var before := ctx.replies;
      next := control;
      var page := ctx.Search(query);
      assert CallsOf(query, sent + [control]) == CallsOf(query, sent) + [SearchCall(query, [control])];
      if page.Err? {
        return true, page, next;
      }
      assert before[1..] == replies0[|sent| + 1..];
      var pageEntries := page.value;
      var controls := ctx.GetResponseControls();
      var cookie := ReadCookie(control.cookie, controls);
      next := PageControl(searchLimit, cookie, true);
      ctx.SetRequestControls([next]);
      if cookie.None? {
        return true, Ok(entries + pageEntries), next;
      }
      PagedStep(entries, sent, before, control);
      return false, Ok(entries + pageEntries), next;
    }

    /** `ldapSearch`: a plain search, or the paged loop of section 3 of RFC 2696. */
    method LdapSearch(query: Query) returns (r: Result<seq<Entry>>)
      requires ctx != null
      modifies ctx
      ensures r == SearchResult(old(ctx.replies))
      ensures isPagedSearch ==>
        var run := PagedLoop(old(ctx.replies), FirstControl(searchLimit));
        && ctx.searches == old(ctx.searches) + CallsOf(query, run.sent)
        && ctx.replies == old(ctx.replies)[Consumed(old(ctx.replies), run)..]
        && ctx.requestControls == [run.left]
        && ctx.responseControls == run.response
      ensures !isPagedSearch ==>
        && ctx.searches == old(ctx.searches) + [SearchCall(query, old(ctx.requestControls))]
        && ctx.replies == (if old(ctx.replies) == [] then [] else old(ctx.replies)[1..])
        && ctx.requestControls == old(ctx.requestControls)
        && ctx.responseControls == (if old(ctx.replies) == [] || old(ctx.replies)[0].Refused? then None else old(ctx.replies)[0].controls)
      ensures ctx.modifyOutcomes == old(ctx.modifyOutcomes) && ctx.attempted == old(ctx.attempted) && ctx.applied == old(ctx.applied)
    {
      if !isPagedSearch {
        r := ctx.Search(query);
        return;
      }
      ghost var replies0 := ctx.replies;
      ghost var sent: seq<PageControl> := [];
      var entries: seq<Entry> := [];
      var control := FirstControl(searchLimit);
      ctx.SetRequestControls([control]);
      ghost var run0 := PagedLoop(replies0, control);
      assert Paging.AfterRounds(entries, sent, run0) == run0 by {
        if run0.result.Ok? {
          assert entries + run0.result.value == run0.result.value;
        }
        assert sent + run0.sent == run0.sent;
      }
      while true
        invariant control.pageSize == searchLimit && ctx.requestControls == [control]
        invariant |sent| <= |replies0| && ctx.replies == replies0[|sent|..]
        invariant ctx.searches == old(ctx.searches) + CallsOf(query, sent)
        invariant Paging.AfterRounds(entries, sent, PagedLoop(ctx.replies, control)) == run0
        invariant ctx.modifyOutcomes == old(ctx.modifyOutcomes) && ctx.attempted == old(ctx.attempted) && ctx.applied == old(ctx.applied)
        decreases |ctx.replies|
      {
        var stop, res, next := PageRound(query, entries, control, sent, replies0, old(ctx.searches), run0);
        if stop {
          return res;
        }
        entries := res.value;
        sent := sent + [control];
        control := next;
      }
    }

    /** The search side of the context after `ldapSearch(query)` from `side`:
        the paged run's searches, replies consumed and controls left, or the
        one plain search. */
    ghost function SearchedSide(query: Query, side: SearchState): SearchState
      reads this
    {
      var replies := side.0;
      if isPagedSearch then
        var run := PagedLoop(replies, FirstControl(searchLimit));
        (replies[Consumed(replies, run)..], [run.left], run.response, side.3 + CallsOf(query, run.sent))
      else
        (if replies == [] then [] else replies[1..],
         side.1,
         if replies == [] || replies[0].Refused? then None else replies[0].controls,
         side.3 + [SearchCall(query, side.1)])
    }

    /** What `getUsers` promises for the directory's replies: the search's
        failure, or the users of the entries found. */
    ghost function ExpectedUsers(replies: seq<Reply>, reqs: Option<seq<UserAttribute>>, fna: Option<UserAttribute>): Result<Option<seq<UserRecord>>>
      reads this, if reqs.Some? then reqs.value else [], if fna.Some? then {fna.value} else {}
    {
      match SearchResult(replies)
      case Err(x) => Err(x)
      case Ok(entries) => UsersOf(entries, RequestValues(reqs), AttributeValue(fna))
    }

    /** The attribute names to ask the directory for. */
    method ReturningNames(reqs: Option<seq<UserAttribute>>, fna: Option<UserAttribute>) returns (names: seq<string>)
      ensures names == ReturningAttributes(RequestValues(reqs), AttributeValue(fna))
    {
      names := [];
      if reqs.Some? {
        var list := reqs.value;
        for i := 0 to |list|
          invariant names == NamesOf(list[..i])
        {
          assert list[..i + 1][..i] == list[..i];
          names := names + [list[i].name];
        }
        assert list[..|list|] == list;
        assert NamesOf(list) == NamesOfValues(SnapshotsOf(list));
        if fna.Some? {
          names := names + [fna.value.name];
        }
      } else if fna.Some? {
        names := names + [fna.value.name];
      }
    }

    /** `getUsers`: null when nothing is found, never an empty list; else one
        user per entry, in entry order. */
    method GetUsers(baseDN: string, filter: string, reqs: Option<seq<UserAttribute>>, fna: Option<UserAttribute>)
      returns (r: Result<Option<seq<User>>>)
      modifies ctx
      ensures ctx == null ==> r == Err(NullPointer)
      ensures ctx != null ==>
        && ctx.SearchSide() == SearchedSide(Query(baseDN, filter, old(ReturningAttributes(RequestValues(reqs), AttributeValue(fna)))), old(ctx.SearchSide()))
        && ctx.ModifySide() == old(ctx.ModifySide())
      ensures ctx != null ==>
        var expected := ExpectedUsers(old(ctx.replies), reqs, fna);
        && (r.Err? <==> expected.Err?)
        && (r.Err? ==> r.error == expected.error)
        && (r.Ok? ==> (r.value.None? <==> expected.value.None?))
        && (r.Ok? && r.value.Some? ==>
              && r.value.value != []
              && RecordsOf(r.value.value) == expected.value.value
              && AllValid(r.value.value))
    {
      var names := ReturningNames(reqs, fna);
      if ctx == null {
        return Err(NullPointer);
      }
      var found := LdapSearch(Query(baseDN, filter, names));
      assert ctx.SearchSide() == SearchedSide(Query(baseDN, filter, names), old(ctx.SearchSide()));
      if found.Err? {
        return Err(found.error);
      }
      r := BuildUsers(found.value, reqs, fna);
    }

    /** `getUser`: the first user found, or null. */
    method GetUser(baseDN: string, filter: string, reqs: Option<seq<UserAttribute>>, fna: Option<UserAttribute>)
      returns (r: Result<Option<User>>)
      modifies ctx
      ensures ctx == null ==> r == Err(NullPointer)
      ensures ctx != null ==>
        && ctx.SearchSide() == SearchedSide(Query(baseDN, filter, old(ReturningAttributes(RequestValues(reqs), AttributeValue(fna)))), old(ctx.SearchSide()))
        && ctx.ModifySide() == old(ctx.ModifySide())
      ensures ctx != null ==>
        var expected := ExpectedUsers(old(ctx.replies), reqs, fna);
        && (r.Err? <==> expected.Err?)
        && (r.Err? ==> r.error == expected.error)
        && (r.Ok? ==> (r.value.None? <==> expected.value.None?))
        && (r.Ok? && r.value.Some? ==>
              expected.value.value != [] &&
              r.value.value.Valid() && r.value.value.Record() == expected.value.value[0])
    {
      var result := GetUsers(baseDN, filter, reqs, fna);
      match result
      case Err(x) => r := Err(x);
      case Ok(None) => r := Ok(None);
      case Ok(Some(users)) =>
        RecordsOfEach(users);
        r := Ok(Some(users[0]));
    }

    /** The scripted answers to the next modify requests; a missing context
        fails the first request sent. */
    function PendingOutcomes(): seq<Outcome>
      reads this, ctx
    {
      if ctx == null then [Fail(NullPointer)] else ctx.modifyOutcomes
    }

    /** The request controls the context sends with every later request. */
    function SentControls(): seq<PageControl>
      reads this, ctx
    {
      if ctx == null then [] else ctx.requestControls
    }

    /** One step of `modifyUsers`: build the user's items and, when that
        succeeds, send them as one modify request. `rec` is the user's value
        and `controls` the request controls set on the context. */
    method SendUser(u: User, ghost rec: UserRecord, ghost controls: seq<PageControl>) returns (o: Outcome)
      requires u.Valid() && u.Record() == rec && LinkedMaps.Valid(rec.attributes)
      requires ctx != null ==> ctx.requestControls == controls
      modifies ctx
      ensures RequestOf(rec, controls).Err? ==> o == Fail(RequestOf(rec, controls).error) && (ctx != null ==> unchanged(ctx))
      ensures RequestOf(rec, controls).Ok? && ctx == null ==> o == Fail(NullPointer)
      ensures RequestOf(rec, controls).Ok? && ctx != null ==>
        && o == NextOutcome(old(ctx.modifyOutcomes))
        && ctx.attempted == old(ctx.attempted) + [RequestOf(rec, controls).value]
        && ctx.applied == (if o.Pass? then old(ctx.applied) + [RequestOf(rec, controls).value] else old(ctx.applied))
        && ctx.modifyOutcomes == Rest(old(ctx.modifyOutcomes))
        && ctx.SearchSide() == old(ctx.SearchSide())
    {
      var items := EncodeUser(u);
      if items.Err? {
        return Fail(items.error);
      }
      if ctx == null {
        return Fail(NullPointer);
      }
      o := ctx.ModifyAttributes(u.distinguishedName, items.value);
    }

    /** What the loop of `modifyUsers` keeps before user `i`: `run` is the
        whole run, of which `done` was applied; `attempted0`, `applied0`,
        `side0` and `controls0` are the logs, the search state and the request
        controls before the loop. */
    ghost predicate Progress(reqs: seq<Result<ModifyCall>>, i: nat, done: seq<ModifyCall>, run: ModifyRun,
                             attempted0: seq<ModifyCall>, applied0: seq<ModifyCall>, side0: SearchState, controls0: seq<PageControl>)
      reads this, ctx
    {
      && i <= |reqs|
      && (ctx != null ==>
            ctx.attempted == attempted0 + done && ctx.applied == applied0 + done && ctx.SearchSide() == side0 && ctx.requestControls == controls0)
      && Modify.AfterApplied(done, RunFrom(reqs, i, PendingOutcomes())) == run
    }

    /** One round of the loop of `modifyUsers`, for user `i` whose request is
        `reqs[i]`: a failure ends the run; otherwise user `i` joins `done`. */
    method SendStep(users: seq<User>, ghost recs: seq<UserRecord>, ghost reqs: seq<Result<ModifyCall>>, i: nat,
                    ghost done: seq<ModifyCall>, ghost run: ModifyRun, ghost attempted0: seq<ModifyCall>,
                    ghost applied0: seq<ModifyCall>, ghost side0: SearchState, ghost controls0: seq<PageControl>) returns (o: Outcome)
      requires i < |users| == |recs| == |reqs|
      requires users[i].Valid() && users[i].Record() == recs[i]
      requires forall j :: 0 <= j < |recs| ==> LinkedMaps.Valid(recs[j].attributes)
      requires reqs == Requests(recs, controls0)
      requires Progress(reqs, i, done, run, attempted0, applied0, side0, controls0)
      modifies ctx
      ensures o.Fail? ==>
        && o == run.outcome
        && (ctx != null ==>
              && ctx.attempted == attempted0 + run.attempted && ctx.applied == applied0 + run.applied
              && ctx.modifyOutcomes == run.left && ctx.SearchSide() == side0)
      ensures o.Pass? ==> reqs[i].Ok? && Progress(reqs, i + 1, done + [reqs[i].value], run, attempted0, applied0, side0, controls0)
    {
      ghost var pending := PendingOutcomes();
      RequestAt(recs, controls0, i);
      o := SendUser(users[i], recs[i], controls0);
      if o.Pass? {
        ModifyStep(done, reqs, i, pending);
      }
    }

    /** The loop of `modifyUsers` over users whose values are `recs` and
        whose requests are `reqs`, on a context with request controls `controls`. */
    method SendAll(users: seq<User>, ghost recs: seq<UserRecord>, ghost reqs: seq<Result<ModifyCall>>, ghost controls: seq<PageControl>) returns (o: Outcome)
      requires |users| == |recs|
      requires forall j :: 0 <= j < |recs| ==> LinkedMaps.Valid(recs[j].attributes)
      requires reqs == Requests(recs, controls) && (ctx != null ==> ctx.requestControls == controls)
      requires forall j :: 0 <= j < |users| ==> users[j].Valid() && users[j].Record() == recs[j]
      modifies ctx
      ensures var run := Run(reqs, old(PendingOutcomes()));
        && o == run.outcome
        && (ctx != null ==>
              && ctx.attempted == old(ctx.attempted) + run.attempted
              && ctx.applied == old(ctx.applied) + run.applied
              && ctx.modifyOutcomes == run.left)
      ensures ctx != null ==> ctx.SearchSide() == old(ctx.SearchSide())
    {
      ghost var run := RunFrom(reqs, 0, PendingOutcomes());
      RunFromStart(reqs, PendingOutcomes());
      assert run == Run(reqs, old(PendingOutcomes()));
      ghost var attempted0, applied0 := if ctx != null then ctx.attempted else [], if ctx != null then ctx.applied else [];
      ghost var side0: SearchState := if ctx != null then ctx.SearchSide() else ([], [], None, []);
      ghost var done: seq<ModifyCall> := [];
      for i := 0 to |users|
        invariant Progress(reqs, i, done, run, attempted0, applied0, side0, controls)
      {
        RecordUnchanged(users[i]);
        o := SendStep(users, recs, reqs, i, done, run, attempted0, applied0, side0, controls);
        if o.Fail? {
          return o;
        }
        done := done + [reqs[i].value];
      }
      o := Pass;
    }

    /** `modifyUsers`: the users' requests in list order, each sent once its
        items are built, stopping at the first failure. */
    method ModifyUsers(users: seq<User>) returns (o: Outcome)
      requires AllValid(users)
      modifies ctx
      ensures forall i :: 0 <= i < |users| ==> LinkedMaps.Valid(old(RecordsOf(users))[i].attributes)
      ensures var run := ModifyAll(old(RecordsOf(users)), old(PendingOutcomes()), old(SentControls()));
        && o == run.outcome
        && (ctx != null ==>
              && ctx.attempted == old(ctx.attempted) + run.attempted
              && ctx.applied == old(ctx.applied) + run.applied
              && ctx.modifyOutcomes == run.left)
      ensures ctx != null ==> ctx.SearchSide() == old(ctx.SearchSide())
    {
      ghost var recs := RecordsOf(users);
      RecordsOfEach(users);
      forall i | 0 <= i < |users| ensures LinkedMaps.Valid(recs[i].attributes) {
        ValuesOfSnapshots(users[i].attributes);
      }
      o := SendAll(users, recs, Requests(recs, SentControls()), SentControls());
    }

    /** `modifyUser`: `modifyUsers` on a one-user list. */
    method ModifyUser(user: User) returns (o: Outcome)
      requires user.Valid()
      modifies ctx
      ensures LinkedMaps.Valid(old(user.Record()).attributes)
      ensures var run := ModifyAll([old(user.Record())], old(PendingOutcomes()), old(SentControls()));
        && o == run.outcome
        && (ctx != null ==>
              && ctx.attempted == old(ctx.attempted) + run.attempted
              && ctx.applied == old(ctx.applied) + run.applied
              && ctx.modifyOutcomes == run.left)
      ensures ctx != null ==> ctx.SearchSide() == old(ctx.SearchSide())
    {
      assert AllValid([user]);
      RecordsOfEach([user]);
      assert RecordsOf([user]) == [user.Record()];
      o := ModifyUsers([user]);
    }
  }
}
