/** How `getUsers` turns a search entry into a user: the attribute names it
    asks the directory for, the friendly name (taken from the DN or from a
    designated attribute, then lower-cased), and one attribute per requested
    attribute, with null for what the entry lacks. */
module Records {
  import opened Common
  import opened LinkedMaps
  import opened UserAttributes
  import opened Directory
  import opened Users

  /** The first position at or after `from` that holds `c`, or -1. */
  function IndexOfCharFrom(s: string, c: char, from: nat): (r: int)
    requires from <= |s|
    ensures r == -1 || from <= r < |s|
    ensures r == -1 <==> forall j :: from <= j < |s| ==> s[j] != c
    ensures r >= 0 ==> s[r] == c && forall j :: from <= j < r ==> s[j] != c
    decreases |s| - from
  {
    if from == |s| then -1
    else if s[from] == c then from
    else IndexOfCharFrom(s, c, from + 1)
  }

  /** `String.indexOf(c)`: the first position of `c`, or -1. */
  function IndexOfChar(s: string, c: char): (r: int)
    ensures -1 <= r < |s|
    ensures r == -1 <==> c !in s
    ensures r >= 0 ==> s[r] == c && forall j :: 0 <= j < r ==> s[j] != c
  {
    IndexOfCharFrom(s, c, 0)
  }

  /** `String.substring(begin, end)`. */
  function Substring(s: string, begin: int, end: int): Result<string> {
    if 0 <= begin <= end <= |s| then Ok(s[begin..end]) else Err(StringIndexOutOfBounds)
  }

  /** Lower case, on ASCII letters only. */
  function LowerChar(c: char): char {
    if 'A' <= c <= 'Z' then (c as int + 32) as char else c
  }

  function ToLower(s: string): (r: string)
    ensures |r| == |s|
    ensures forall i :: 0 <= i < |s| ==> r[i] == LowerChar(s[i])
  {
    seq(|s|, i requires 0 <= i < |s| => LowerChar(s[i]))
  }

  /** The friendly name read from a DN, before lower-casing:
      `dn.substring(dn.indexOf("=") + 1, dn.indexOf(","))`. */
  function DnFriendlyName(dn: string): Result<string> {
    Substring(dn, IndexOfChar(dn, '=') + 1, IndexOfChar(dn, ','))
  }

  /** The first `c` of `p + [c] + q` is the one after `p` when `p` holds none. */
  lemma IndexOfCharAfter(p: string, c: char, q: string)
    requires c !in p
    ensures IndexOfChar(p + [c] + q, c) == |p|
  {
    assert (p + [c] + q)[|p|] == c;
  }

  /** For a DN `key=value,rest` whose key holds neither `=` nor `,` and whose
      value holds no `,`, the friendly name is the value. */
  lemma DnFriendlyNameOfFirstRdn(key: string, value: string, rest: string)
    requires '=' !in key && ',' !in key && ',' !in value
    ensures DnFriendlyName(key + "=" + value + "," + rest) == Ok(value)
  {
    var dn := key + "=" + value + "," + rest;
    assert dn == key + ['='] + (value + "," + rest);
    IndexOfCharAfter(key, '=', value + "," + rest);
    var head := key + "=" + value;
    assert ',' !in head by {
      forall i | 0 <= i < |head| ensures head[i] != ',' {
        if i < |key| { assert head[i] == key[i]; }
        else if i > |key| { assert head[i] == value[i - |key| - 1]; }
      }
    }
    assert dn == head + [','] + rest;
    IndexOfCharAfter(head, ',', rest);
    assert dn[|key| + 1..|head|] == value;
  }

  /** Every outcome of the DN rule: no `,` fails; a `,` before the first `=`
      fails; without `=` the name is everything before the first `,`;
      otherwise it is what lies between the first `=` and the first `,`. */
  lemma DnFriendlyNameCases(dn: string)
    ensures ',' !in dn ==> DnFriendlyName(dn) == Err(StringIndexOutOfBounds)
    ensures ',' in dn && '=' !in dn ==> DnFriendlyName(dn) == Ok(dn[..IndexOfChar(dn, ',')])
    ensures ',' in dn && '=' in dn && IndexOfChar(dn, ',') < IndexOfChar(dn, '=') ==>
      DnFriendlyName(dn) == Err(StringIndexOutOfBounds)
    ensures ',' in dn && '=' in dn && IndexOfChar(dn, '=') < IndexOfChar(dn, ',') ==>
      DnFriendlyName(dn) == Ok(dn[IndexOfChar(dn, '=') + 1..IndexOfChar(dn, ',')])
  {
    var eq, comma := IndexOfChar(dn, '='), IndexOfChar(dn, ',');
    if comma < 0 {
      assert ',' !in dn;
    } else if eq < 0 {
      assert ',' in dn && '=' !in dn;
    } else {
      assert dn[eq] != dn[comma];
    }
  }

  /** Lower-casing compared letter by letter. */
  lemma LowerLetters(s: string, t: string)
    requires |s| == |t| && forall i :: 0 <= i < |s| ==> LowerChar(s[i]) == t[i]
    ensures ToLower(s) == t
  {
  }

  /** The example of the documentation: "OU=Nome,OU=abc,OU=cde,OU=fgh" names "nome". */
  lemma DnFriendlyNameExample()
    ensures DnFriendlyName("OU" + "=" + "Nome" + "," + "OU=abc,OU=cde,OU=fgh") == Ok("Nome")
    ensures ToLower("Nome") == "nome"
  {
    DnFriendlyNameOfFirstRdn("OU", "Nome", "OU=abc,OU=cde,OU=fgh");
    LowerLetters("Nome", "nome");
  }

  /** `attributes.get(name)` then `Attribute.get()`: null when the entry lacks
      the attribute, its first value otherwise. */
  function FirstValue(e: Entry, name: string): Result<Option<string>> {
    if name !in e.attributes then Ok(None)
    else if e.attributes[name] == [] then Err(NoSuchElement)
    else Ok(Some(e.attributes[name][0]))
  }

  /** Strings as a list of non-null elements. */
  function Lift(vs: seq<string>): (r: StringList)
    ensures |r| == |vs| && forall i :: 0 <= i < |vs| ==> r[i] == Some(vs[i])
  {
    seq(|vs|, i requires 0 <= i < |vs| => Some(vs[i]))
  }

  /** All values of an attribute in enumeration order, or null when the entry
      lacks it (null, not an empty list). */
  function AllValues(e: Entry, name: string): Option<StringList> {
    if name !in e.attributes then None else Some(Lift(e.attributes[name]))
  }

  /** The friendly name before lower-casing: from the DN when no friendly-name
      attribute is given, else that attribute's first value (maybe null). */
  function RawFriendlyName(e: Entry, friendlyNameAttribute: Option<AttrValue>): Result<Option<string>> {
    if friendlyNameAttribute.None? then
      match DnFriendlyName(e.dn)
      case Ok(s) => Ok(Some(s))
      case Err(x) => Err(x)
    else FirstValue(e, friendlyNameAttribute.value.name)
  }

  /** The attribute built for one requested attribute; an untyped request
      builds none. */
  function Extract(e: Entry, req: AttrValue): Result<Option<AttrValue>> {
    match req.kind
    case Some(SingleValued) =>
      (match FirstValue(e, req.name)
       case Ok(v) => Ok(Some(AttrValue(req.name, Some(SingleValued), SetAttribute, v, None)))
       case Err(x) => Err(x))
    case Some(MultiValued) =>
      Ok(Some(AttrValue(req.name, Some(MultiValued), SetAttribute, None, AllValues(e, req.name))))
    case None => Ok(None)
  }

  /** The attributes built for the requests, in request order; the first
      failing request fails all. */
  function ExtractAll(e: Entry, reqs: seq<AttrValue>): Result<seq<AttrValue>>
    decreases |reqs|
  {
    if reqs == [] then Ok([])
    else
      match ExtractAll(e, reqs[..|reqs| - 1])
      case Err(x) => Err(x)
      case Ok(init) =>
        match Extract(e, reqs[|reqs| - 1])
        case Err(x) => Err(x)
        case Ok(a) => Ok(init + (if a.Some? then [a.value] else []))
  }

  /** The requested attributes that have a type, in request order. */
  function TypedRequests(reqs: seq<AttrValue>): seq<AttrValue>
    decreases |reqs|
  {
    if reqs == [] then []
    else TypedRequests(reqs[..|reqs| - 1]) + (if reqs[|reqs| - 1].kind.Some? then [reqs[|reqs| - 1]] else [])
  }

  /** A failing prefix of requests fails the extraction with the same error. */
  lemma {:induction false} ExtractAllPrefixFails(e: Entry, reqs: seq<AttrValue>, k: nat)
    requires k <= |reqs| && ExtractAll(e, reqs[..k]).Err?
    ensures ExtractAll(e, reqs) == ExtractAll(e, reqs[..k])
    decreases |reqs| - k
  {
    if k < |reqs| {
      assert reqs[..k + 1][..k] == reqs[..k];
      ExtractAllPrefixFails(e, reqs, k + 1);
    } else {
      assert reqs[..k] == reqs;
    }
  }

  /** One more request extends the attributes built for a prefix, or fails
      the extraction with its own error. */
  lemma ExtractAllStep(e: Entry, reqs: seq<AttrValue>, i: nat, attrs: seq<AttrValue>, x: Result<Option<AttrValue>>)
    requires i < |reqs| && ExtractAll(e, reqs[..i]) == Ok(attrs) && x == Extract(e, reqs[i])
    ensures x.Ok? ==> ExtractAll(e, reqs[..i + 1]) == Ok(attrs + (if x.value.Some? then [x.value.value] else []))
    ensures x.Err? ==> ExtractAll(e, reqs) == Err(x.error)
  {
    assert reqs[..i + 1][..i] == reqs[..i];
    if x.Err? {
      ExtractAllPrefixFails(e, reqs, i + 1);
    }
  }

  /** `a` is what a typed request `req` builds from `e`: same name and type,
      op SET, a single-valued one holding the first value or null, a
      multi-valued one all values, or null when the entry lacks the attribute. */
  predicate Built(e: Entry, req: AttrValue, a: AttrValue) {
    && a.name == req.name && a.kind == req.kind && a.op == SetAttribute
    && (req.kind == Some(SingleValued) ==> Ok(a.single) == FirstValue(e, req.name) && a.multi.None?)
    && (req.kind == Some(MultiValued) ==> a.multi == AllValues(e, req.name) && a.single.None?)
  }

  /** Extraction fails exactly when a single-valued request names an
      attribute the entry holds without values. */
  lemma {:induction false} ExtractAllFails(e: Entry, reqs: seq<AttrValue>)
    ensures ExtractAll(e, reqs).Err? <==>
      exists i :: 0 <= i < |reqs| && reqs[i].kind == Some(SingleValued) && FirstValue(e, reqs[i].name).Err?
    decreases |reqs|
  {
    if reqs != [] {
      var init := reqs[..|reqs| - 1];
      ExtractAllFails(e, init);
      if ExtractAll(e, init).Err? {
        var i :| 0 <= i < |init| && init[i].kind == Some(SingleValued) && FirstValue(e, init[i].name).Err?;
        assert reqs[i] == init[i];
      }
      if exists i :: 0 <= i < |reqs| && reqs[i].kind == Some(SingleValued) && FirstValue(e, reqs[i].name).Err? {
        var i :| 0 <= i < |reqs| && reqs[i].kind == Some(SingleValued) && FirstValue(e, reqs[i].name).Err?;
        if i < |init| { assert init[i] == reqs[i]; }
      }
    }
  }

  /** Each typed request yields one attribute, in request order; untyped
      requests yield none. */
  lemma {:induction false} ExtractAllShape(e: Entry, reqs: seq<AttrValue>)
    requires ExtractAll(e, reqs).Ok?
    ensures var attrs, typed := ExtractAll(e, reqs).value, TypedRequests(reqs);
      |attrs| == |typed| && forall i :: 0 <= i < |attrs| ==> Built(e, typed[i], attrs[i])
    decreases |reqs|
  {
    if reqs != [] {
      var init, last := reqs[..|reqs| - 1], reqs[|reqs| - 1];
      ExtractAllShape(e, init);
      var h := Extract(e, last).value;
      assert h.Some? <==> last.kind.Some?;
      assert h.Some? ==> Built(e, last, h.value);
    }
  }

  /** The names of built attributes. */
  function NamesOfValues(attrs: seq<AttrValue>): (ns: seq<string>)
    ensures |ns| == |attrs| && forall i :: 0 <= i < |attrs| ==> ns[i] == attrs[i].name
  {
    seq(|attrs|, i requires 0 <= i < |attrs| => attrs[i].name)
  }

  /** A user from its DN, its friendly name as read, and its attributes as
      built (none when no attributes were requested): a failure to read
      either fails the user, and a null friendly name cannot be lower-cased. */
  function Assemble(dn: string, name: Result<Option<string>>, attrs: Option<Result<seq<AttrValue>>>): (r: Result<UserRecord>)
    ensures r.Ok? <==> name.Ok? && name.value.Some? && (attrs.Some? ==> attrs.value.Ok?)
    ensures name.Err? ==> r == Err(name.error)
    ensures r.Ok? ==> r.value.dn == dn && r.value.friendlyName == ToLower(name.value.value)
    ensures r.Ok? && attrs.None? ==> r.value.attributes == Empty()
  {
    match name
    case Err(x) => Err(x)
    case Ok(n) =>
      if attrs.Some? && attrs.value.Err? then Err(attrs.value.error)
      else if n.None? then Err(NullPointer)
      else if attrs.Some? then
        var built := attrs.value.value;
        Ok(UserRecord(dn, ToLower(n.value), PutAll(Empty(), NamesOfValues(built), built)))
      else Ok(UserRecord(dn, ToLower(n.value), Empty()))
  }

  /** The user `getUsers` builds from one entry: the friendly name is read
      first, then the attributes, and the friendly name is lower-cased last.
      Without requested attributes the user is bare; with them, the user's
      map is built from the list as its constructor does. */
  function BuildRecord(e: Entry, reqs: Option<seq<AttrValue>>, friendlyNameAttribute: Option<AttrValue>): (r: Result<UserRecord>)
    ensures r.Ok? ==> r.value.dn == e.dn
  {
    Assemble(e.dn, RawFriendlyName(e, friendlyNameAttribute), if reqs.Some? then Some(ExtractAll(e, reqs.value)) else None)
  }

  /** The user of each entry, in entry order. */
  function EntryRecords(es: seq<Entry>, reqs: Option<seq<AttrValue>>, friendlyNameAttribute: Option<AttrValue>): (rs: seq<Result<UserRecord>>)
    ensures |rs| == |es|
    decreases |es|
  {
    if es == [] then []
    else EntryRecords(es[..|es| - 1], reqs, friendlyNameAttribute) + [BuildRecord(es[|es| - 1], reqs, friendlyNameAttribute)]
  }

  /** Entry `i` gives the `i`-th user. */
  lemma {:induction false} EntryRecordsAt(es: seq<Entry>, reqs: Option<seq<AttrValue>>, fna: Option<AttrValue>)
    ensures forall i :: 0 <= i < |es| ==> EntryRecords(es, reqs, fna)[i] == BuildRecord(es[i], reqs, fna)
    decreases |es|
  {
    if es != [] {
      var init := es[..|es| - 1];
      EntryRecordsAt(init, reqs, fna);
      forall i | 0 <= i < |es| ensures EntryRecords(es, reqs, fna)[i] == BuildRecord(es[i], reqs, fna) {
        if i < |init| { assert es[i] == init[i]; }
      }
    }
  }

  /** The users of all entries, in entry order; the first failing entry fails all. */
  function BuildRecords(es: seq<Entry>, reqs: Option<seq<AttrValue>>, friendlyNameAttribute: Option<AttrValue>): Result<seq<UserRecord>> {
    Collect(EntryRecords(es, reqs, friendlyNameAttribute))
  }

  /** `getUsers` after the search: null for no entries, else the users. */
  function UsersOf(es: seq<Entry>, reqs: Option<seq<AttrValue>>, friendlyNameAttribute: Option<AttrValue>): Result<Option<seq<UserRecord>>> {
    if es == [] then Ok(None)
    else
      match BuildRecords(es, reqs, friendlyNameAttribute)
      case Err(x) => Err(x)
      case Ok(rs) => Ok(Some(rs))
  }

  /** The attribute names requested from the directory: the requested
      attributes' names, then the friendly-name attribute's; none at all when
      there is neither. */
  function ReturningAttributes(reqs: Option<seq<AttrValue>>, friendlyNameAttribute: Option<AttrValue>): seq<string> {
    (if reqs.Some? then NamesOfValues(reqs.value) else [])
    + (if friendlyNameAttribute.Some? then [friendlyNameAttribute.value.name] else [])
  }

  /** The users of several entries fail exactly when one entry's user does,
      and then with the error of the first entry that fails. */
  lemma BuildRecordsFails(es: seq<Entry>, reqs: Option<seq<AttrValue>>, fna: Option<AttrValue>)
    ensures BuildRecords(es, reqs, fna).Err? <==> exists i :: 0 <= i < |es| && BuildRecord(es[i], reqs, fna).Err?
    ensures BuildRecords(es, reqs, fna).Err? ==>
      exists i :: 0 <= i < |es| && BuildRecord(es[i], reqs, fna) == Err(BuildRecords(es, reqs, fna).error)
        && forall j :: 0 <= j < i ==> BuildRecord(es[j], reqs, fna).Ok?
  {
    EntryRecordsAt(es, reqs, fna);
    CollectFails(EntryRecords(es, reqs, fna));
  }

  /** Otherwise there is one user per entry, in order, with the entry's DN. */
  lemma BuildRecordsShape(es: seq<Entry>, reqs: Option<seq<AttrValue>>, fna: Option<AttrValue>)
    requires BuildRecords(es, reqs, fna).Ok?
    ensures var rs := BuildRecords(es, reqs, fna).value;
      |rs| == |es| &&
      forall i :: 0 <= i < |es| ==> BuildRecord(es[i], reqs, fna) == Ok(rs[i]) && rs[i].dn == es[i].dn
  {
    EntryRecordsAt(es, reqs, fna);
    CollectShape(EntryRecords(es, reqs, fna));
  }

  /** No entries give null, never an empty list; entries give one user per
      entry or the first failure. */
  lemma UsersOfEmpty(es: seq<Entry>, reqs: Option<seq<AttrValue>>, fna: Option<AttrValue>)
    ensures es == [] <==> UsersOf(es, reqs, fna) == Ok(None)
    ensures UsersOf(es, reqs, fna) != Ok(Some([]))
    ensures es != [] && UsersOf(es, reqs, fna).Ok? ==> UsersOf(es, reqs, fna).value.Some? && |UsersOf(es, reqs, fna).value.value| == |es|
  {
    if es != [] && BuildRecords(es, reqs, fna).Ok? {
      BuildRecordsShape(es, reqs, fna);
    }
  }

  /** A user built with requested attributes holds one attribute per distinct
      typed name, in first-request order; the attribute under a name is built
      from the last typed request of that name. */
  lemma BuiltUserAttributes(e: Entry, reqs: seq<AttrValue>, fna: Option<AttrValue>, i: nat)
    requires BuildRecord(e, Some(reqs), fna).Ok?
    requires i < |TypedRequests(reqs)| && TypedRequests(reqs)[i].name !in NamesOfValues(TypedRequests(reqs)[i + 1..])
    ensures var attrs := BuildRecord(e, Some(reqs), fna).value.attributes;
      && attrs.keys == Firsts(NamesOfValues(TypedRequests(reqs)))
      && TypedRequests(reqs)[i].name in attrs.m
      && Built(e, TypedRequests(reqs)[i], attrs.m[TypedRequests(reqs)[i].name])
  {
    var built := ExtractAll(e, reqs).value;
    ExtractAllShape(e, reqs);
    assert BuildRecord(e, Some(reqs), fna).value.attributes == PutAll(Empty(), NamesOfValues(built), built);
    BuiltMap(e, TypedRequests(reqs), built, i);
  }

  /** The map a user's constructor builds from attributes built pointwise
      from typed requests. */
  lemma BuiltMap(e: Entry, typed: seq<AttrValue>, built: seq<AttrValue>, i: nat)
    requires |built| == |typed| && forall j :: 0 <= j < |built| ==> Built(e, typed[j], built[j])
    requires i < |typed| && typed[i].name !in NamesOfValues(typed[i + 1..])
    ensures var attrs := PutAll(Empty(), NamesOfValues(built), built);
      && attrs.keys == Firsts(NamesOfValues(typed))
      && typed[i].name in attrs.m
      && Built(e, typed[i], attrs.m[typed[i].name])
  {
    var names := NamesOfValues(built);
    assert names == NamesOfValues(typed);
    assert NamesOfValues(typed[i + 1..]) == names[i + 1..];
    PutAllKeys(names, built);
    PutAllLastWins(names, built, i);
  }

  /** A requested friendly-name attribute that the entry lacks does not give
      a null friendly name: lower-casing the null fails. */
  lemma FriendlyNameAttributeAbsent(e: Entry, reqs: Option<seq<AttrValue>>, fna: AttrValue)
    requires fna.name !in e.attributes
    requires reqs.Some? ==> ExtractAll(e, reqs.value).Ok?
    ensures BuildRecord(e, reqs, Some(fna)) == Err(NullPointer)
  {
  }

  /** With a friendly-name attribute that the entry holds, the friendly name
      is its first value, lower-cased, whatever attributes are requested. */
  lemma FriendlyNameFromAttribute(e: Entry, reqs: Option<seq<AttrValue>>, fna: AttrValue)
    requires fna.name in e.attributes && e.attributes[fna.name] != []
    requires BuildRecord(e, reqs, Some(fna)).Ok?
    ensures BuildRecord(e, reqs, Some(fna)).value.friendlyName == ToLower(e.attributes[fna.name][0])
  {
  }

  /** Without a friendly-name attribute, a user is built only from a DN the
      substring rule accepts, and its friendly name is that substring,
      lower-cased, whatever attributes are requested. */
  lemma FriendlyNameFromDn(e: Entry, reqs: Option<seq<AttrValue>>)
    requires BuildRecord(e, reqs, None).Ok?
    ensures DnFriendlyName(e.dn).Ok?
    ensures BuildRecord(e, reqs, None).value.friendlyName == ToLower(DnFriendlyName(e.dn).value)
  {
  }

  /** Without requested attributes the user is bare; its friendly name is the
      lower-cased first RDN value when no friendly-name attribute is given. */
  lemma BareRecord(key: string, value: string, rest: string)
    requires '=' !in key && ',' !in key && ',' !in value
    ensures var dn := key + "=" + value + "," + rest;
      BuildRecord(Entry(dn, map[]), None, None) == Ok(UserRecord(dn, ToLower(value), Empty()))
  {
    DnFriendlyNameOfFirstRdn(key, value, rest);
  }
}
