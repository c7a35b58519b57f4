# LDAP client core, modelled in Dafny

This project models the core of a small Java LDAP client library. It has three
classes:

- `UserAttribute` is a mutable attribute. It has a name, an arity tag (single- or
  multi-valued), the modification to request for it (ADD, SET or CLEAR), and the
  value slot that matches its arity. Accessors of the wrong arity throw. It also has
  a hand-written comparison, `hasSameValue`.
- `User` holds a distinguished name (DN), a friendly name, and an insertion-ordered
  `LinkedHashMap` from attribute name to `UserAttribute`.
- `LdapProxy` reads users from the directory with a plain or paged search, builds
  `User` objects from the entries found, and writes users back as one modify request
  per user.

The Java objects become Dafny classes with the same fields, and their methods become
Dafny methods with `modifies` frames. Each loop of the source is a `while` or `for`
loop with invariants. Each method is proved against a specification function on
values:

- `Records.BuildRecord` is the user built from one entry;
- `Paging.PagedLoop` is the run of the paged-search loop;
- `Modify.Run` is the sequence of modify requests and their outcomes;
- `UserAttributes.SameValue` is the comparison.

The properties the library promises are proved as lemmas about those functions.

Java `null` is written `Option` (`None`). A thrown exception is a `Result` or
`Outcome` error; the exception kinds are listed in `Common.Exception`.

The JNDI directory context is modelled by `Directory.Session`, a context whose
answers are a script fixed in advance:

- search replies: a page of entries with optional response controls, or a failure;
- outcomes for modify requests.

Once a script is used up, further requests fail as if the connection were lost. The
session keeps the request controls set on it, the response controls of its last
search, and logs of every search and modify request. Every request is logged with
the request controls set on the context when it was sent. A paged search leaves its
last, critical paged-results control on the context, so later modify requests on
the same context carry it too. The contracts of `LdapProxy` say what the client
sends, with which controls, and what it returns, as functions of that script.

The paged search follows section 3 of RFC 2696:

1. The first request carries a non-critical page control without a cookie.
2. After each round, the cookie of the last paged-results response control replaces
   the loop's cookie, and the request control is reset to a critical one carrying it.
3. The loop continues while the cookie is not null.

The modify mapping uses the operations of section 4.6 of RFC 4511: SET becomes
replace, ADD becomes add, and CLEAR becomes delete of the whole attribute.

Where the documentation and the code disagree, the model follows the code:

- If a friendly-name attribute is given and the entry lacks it, the doc comments
  (`LdapProxy.java:67`, `:92`) say the friendly name is null. The code calls
  `toLowerCase` on that null (`:163`, `:165`), so the model fails with a null
  dereference (`Records.FriendlyNameAttributeAbsent`).
- The DN rule `dn.substring(dn.indexOf("=") + 1, dn.indexOf(","))` gives these
  results (`Records.DnFriendlyNameCases`):
  - a DN without `,` fails;
  - a `,` before the first `=` fails;
  - a DN without `=` gives everything before the first `,`.

  These cases are defined, not left undefined.
- The multi-valued comparison tests one direction only: every element of the
  argument occurs in the receiver. It does not test containment both ways.

## Model

| member | source | states |
|---|---|---|
| Common.CollectFails | src/utils/ldap/LdapProxy.java:124-170 | a sequence of calls fails exactly when one of them throws, and then with the exception of the first call that throws |
| Common.CollectShape | src/utils/ldap/LdapProxy.java:125-167 | a sequence of calls that succeeds yields one value per call, in call order |
| LinkedMaps.Empty | src/utils/ldap/User.java:30 | a new LinkedHashMap has no keys and no mappings |
| LinkedMaps.Put | src/utils/ldap/User.java:115 | `put` keeps the key sequence a duplicate-free listing of the map's keys |
| LinkedMaps.Remove | src/utils/ldap/User.java:174 | `remove` drops the key from the map and unlinks it from the order; the other keys keep their order; removing an absent key changes nothing |
| LinkedMaps.Get | src/utils/ldap/User.java:132 | `get` returns null exactly when the key is absent, else the stored value |
| LinkedMaps.Values | src/utils/ldap/User.java:94 | `values()` lists one value per key, in insertion order |
| LinkedMaps.PutAll | src/utils/ldap/User.java:45-47 | putting a list of pairs keeps the map valid |
| LinkedMaps.FirstsIsDedup | src/utils/ldap/User.java:40-48 | the first occurrences of a list of names are duplicate-free and are exactly the names of the list |
| LinkedMaps.PutAllKeys | src/utils/ldap/User.java:40-48 | putting the attributes of a list into an empty map gives one key per distinct name, at its first occurrence |
| LinkedMaps.PutAllLastWins | src/utils/ldap/User.java:40-48 | the attribute stored under a name is the last one of that name in the list |
| LinkedMaps.RemoveThenPut | src/utils/ldap/User.java:173-177 | remove then put moves the key to the end, unless the new key was another present key, which keeps its position and gets the value |
| UserAttributes.SingleSame | src/utils/ldap/UserAttribute.java:196-207 | the single-valued comparison is equality of nullable strings: both null is true, exactly one null is false |
| UserAttributes.MultiSame | src/utils/ldap/UserAttribute.java:211-234 | the multi-valued comparison: both null is true, exactly one null is false, else equal sizes and every argument element in the receiver (definition; proved about in MultiSameIgnoresOrder, MultiSameFromPermutation, MultiSameNotSymmetric and MultiSameNeedsEqualSizes) |
| UserAttributes.SameValue | src/utils/ldap/UserAttribute.java:194-239 | `hasSameValue` succeeds exactly when both types are set and equal; a null type throws a null dereference; mixed arities throw UnsupportedOperation; single values compare as nullable strings; multi values are equal when both are null, or both are present with equal sizes and every argument element occurs in the receiver |
| UserAttributes.SameValueReflexive | src/utils/ldap/UserAttribute.java:191-192 | every typed attribute has the same value as itself |
| UserAttributes.MultiSameIgnoresOrder | src/utils/ldap/UserAttribute.java:191-192 | reordering either list does not change the multi-valued comparison |
| UserAttributes.MultiSameFromPermutation | src/utils/ldap/UserAttribute.java:211-227 | two lists that are permutations of each other compare equal |
| UserAttributes.MultiSameNotSymmetric | src/utils/ldap/UserAttribute.java:213-223 | the comparison is not symmetric and is weaker than multiset equality: receiver ["a","b"] accepts argument ["a","a"], but not the reverse |
| UserAttributes.MultiSameNeedsEqualSizes | src/utils/ldap/UserAttribute.java:217-226 | ["a","a"] and ["a"] differ although each contains the other's elements |
| UserAttributes.OpOfVarargs | src/utils/ldap/UserAttribute.java:58-62 | the varargs op is taken only when exactly one is passed, otherwise SET |
| UserAttributes.UserAttribute.Typed | src/utils/ldap/UserAttribute.java:24-30 | `(name, type)` gives no values and op SET |
| UserAttributes.UserAttribute.TypedWithOp | src/utils/ldap/UserAttribute.java:38-44 | `(name, type, op)` gives no values and the given op |
| UserAttributes.UserAttribute.Single | src/utils/ldap/UserAttribute.java:53-63 | the String constructor gives a single-valued attribute holding the value, with the varargs op |
| UserAttributes.UserAttribute.Multi | src/utils/ldap/UserAttribute.java:72-82 | the List constructor gives a multi-valued attribute holding the list, with the varargs op |
| UserAttributes.UserAttribute.SetName | src/utils/ldap/UserAttribute.java:94-96 | only the name changes |
| UserAttributes.UserAttribute.SetType | src/utils/ldap/UserAttribute.java:108-110 | only the type changes; both stored values stay |
| UserAttributes.UserAttribute.SetOp | src/utils/ldap/UserAttribute.java:123-125 | only the op changes |
| UserAttributes.UserAttribute.GetSingleValue | src/utils/ldap/UserAttribute.java:131-137 | returns the single value exactly when the attribute is single-valued, else throws UnsupportedOperation |
| UserAttributes.UserAttribute.SetSingleValue | src/utils/ldap/UserAttribute.java:143-149 | on a single-valued attribute only the single value changes; otherwise it throws and nothing changes |
| UserAttributes.UserAttribute.GetMultiValues | src/utils/ldap/UserAttribute.java:155-161 | returns the list exactly when the attribute is multi-valued, else throws UnsupportedOperation |
| UserAttributes.UserAttribute.SetMultiValues | src/utils/ldap/UserAttribute.java:167-173 | on a multi-valued attribute only the list changes; otherwise it throws and nothing changes |
| UserAttributes.UserAttribute.HasSameValue | src/utils/ldap/UserAttribute.java:194-240 | the method, with its early-exit loop, returns the comparison `SameValue` of the argument's value against the receiver's |
| Users.User.constructor | src/utils/ldap/User.java:26-31 | a user with the given DN and friendly name and no attributes |
| Users.User.WithAttributes | src/utils/ldap/User.java:40-48 | the map is the list put into an empty map, name by name (one entry per distinct name, last one wins, first position kept) |
| Users.User.PutEach | src/utils/ldap/User.java:45-47 | the loop puts every attribute of the list under its name, in list order; DN and friendly name unchanged |
| Users.User.GetUserAttributes | src/utils/ldap/User.java:93-95 | a new list of the stored attributes, one per key, in insertion order |
| Users.User.SetUserAttributes | src/utils/ldap/User.java:102-107 | the map becomes exactly what the list constructor builds from the list; DN and friendly name unchanged |
| Users.User.AddUserAttribute | src/utils/ldap/User.java:114-116 | a new name is appended; a present name keeps its position and gets the new attribute; every other entry is unchanged |
| Users.User.ClearUserAttributes | src/utils/ldap/User.java:121-123 | the map becomes empty; DN and friendly name unchanged |
| Users.User.GetUserAttributeByName | src/utils/ldap/User.java:131-133 | exact, case-sensitive lookup: null exactly when the name is absent, else the stored attribute |
| Users.User.SetSingleValuedUserAttributeByName | src/utils/ldap/User.java:142-149 | an absent name gets a new single-valued attribute with op SET at the end, and no other entry changes; a present name keeps keys and order, and its attribute's single value is set, or the call throws UnsupportedOperation on a multi-valued one and changes nothing |
| Users.User.SetMultiValuedUserAttributeByName | src/utils/ldap/User.java:158-165 | the same for multi-valued attributes |
| Users.User.ReplaceUserAttributeName | src/utils/ldap/User.java:173-177 | a present name is removed and its attribute, renamed and otherwise unchanged, is put under the new name; an absent name throws a null dereference |
| Directory.Session.constructor | src/utils/ldap/LdapProxy.java:339 | a new context carries no request controls and has empty logs |
| Directory.Session.SetRequestControls | src/utils/ldap/LdapProxy.java:278 | the controls sent with later requests are replaced; nothing else changes |
| Directory.Session.Search | src/utils/ldap/LdapProxy.java:280 | a search is logged with the current request controls; it consumes one reply and returns its entries or its failure; the response controls become that reply's |
| Directory.Session.GetResponseControls | src/utils/ldap/LdapProxy.java:283 | returns the response controls of the last search |
| Directory.Session.ModifyAttributes | src/utils/ldap/LdapProxy.java:320 | a modify request is logged with its DN, its items and the request controls set on the context, and consumes one scripted outcome; it is applied exactly when that outcome passes; the request controls stay as they are |
| Paging.LastPagedCookieWins | src/utils/ldap/LdapProxy.java:283-290 | of several paged-results response controls the last one's cookie wins; with none, the previous cookie stays |
| Paging.ReadCookie | src/utils/ldap/LdapProxy.java:283-290 | the scan of the response controls leaves the cookie of the last paged-results control, the previous cookie if there is none, or the previous cookie when the controls are null |
| Paging.PagedLoop | src/utils/ldap/LdapProxy.java:278-292 | the first round of the loop is sent with the control set before it |
| Paging.PagedRequestChain | src/utils/ldap/LdapProxy.java:278-292 | every round after the first carries a critical control with the cookie read from the previous round's response, and that cookie is not null; every round before the last got a page |
| Paging.PagedOutcome | src/utils/ldap/LdapProxy.java:273-299 | the loop succeeds exactly when its last round got a page; it then stopped because the cookie was null after that round, it returns every page's entries concatenated in round order, and it leaves a critical control without cookie on the context; a failing round ends the loop with that failure and no partial list |
| Paging.FirstPageWithoutControl | src/utils/ldap/LdapProxy.java:274-292 | a first reply without a paged-results control ends the loop after one round with that page's entries |
| Paging.StuckCookieUsesScript | src/utils/ldap/LdapProxy.java:283-292 | when a non-null cookie is followed by pages whose response controls are null or hold no paged-results control, every round resends the same cookie and the loop ends only when the directory's replies run out |
| Records.IndexOfChar | src/utils/ldap/LdapProxy.java:130 | `indexOf` is the first position of the character, or -1 exactly when it is absent |
| Records.ToLower | src/utils/ldap/LdapProxy.java:163 | lower-casing maps each character, keeping the length |
| Records.DnFriendlyNameOfFirstRdn | src/utils/ldap/LdapProxy.java:129-130 | for a DN `key=value,rest`, where key holds no `=` or `,` and value holds no `,`, the friendly name is the value |
| Records.DnFriendlyName | src/utils/ldap/LdapProxy.java:130 | the friendly name of a DN is the substring from just after the first `=` to just before the first `,`, failing as `String.substring` does (definition; its cases are proved in DnFriendlyNameCases) |
| Records.DnFriendlyNameCases | src/utils/ldap/LdapProxy.java:130 | every outcome of the substring rule: it fails without a `,` or with a `,` before the first `=`; without `=` it is the prefix before the first `,`; otherwise it is what lies between the first `=` and the first `,` |
| Records.DnFriendlyNameExample | src/utils/ldap/LdapProxy.java:88 | the documented example: the DN `OU=Nome,OU=abc,OU=cde,OU=fgh` gives the friendly name "nome" |
| Records.Lift | src/utils/ldap/LdapProxy.java:150-155 | the values of a multi-valued attribute are copied, in enumeration order, none null |
| Records.FirstValue | src/utils/ldap/LdapProxy.java:132-133 | the first value of a named attribute: null when the entry lacks it, NoSuchElement when it holds no value (definition; used for the friendly name and, at lines 145-146, for single-valued requests) |
| Records.RawFriendlyName | src/utils/ldap/LdapProxy.java:128-134 | the friendly name before lower-casing: from the DN when no friendly-name attribute is given, else the first value of that attribute (definition) |
| Records.Extract | src/utils/ldap/LdapProxy.java:140-160 | the attribute built for one request: single-valued holds the first value, multi-valued all values or null, an untyped request builds nothing (definition; proved about in ExtractAllShape) |
| Records.ExtractAll | src/utils/ldap/LdapProxy.java:139-161 | the attributes built for the requests, in request order, stopping at the first failure (definition; proved about in ExtractAllFails and ExtractAllShape) |
| Records.ExtractAllFails | src/utils/ldap/LdapProxy.java:140-161 | extracting the requested attributes fails exactly when a single-valued request names an attribute the entry holds without values |
| Records.ExtractAllShape | src/utils/ldap/LdapProxy.java:139-161 | each typed request yields, in request order, an attribute with its name and type and op SET: single-valued holds the first value or null, multi-valued all values or null when absent; untyped requests yield nothing |
| Records.Assemble | src/utils/ldap/LdapProxy.java:162-165 | a user is built exactly when the friendly name was read and is not null and the requested attributes, if any, were built; a failed read fails with its own error before anything else; a built user has the entry's DN and the lower-cased friendly name, and without requested attributes an empty map |
| Records.BuildRecord | src/utils/ldap/LdapProxy.java:126-166 | the user built from an entry has the entry's DN (its friendly name is stated by FriendlyNameFromAttribute and FriendlyNameFromDn, its attributes by BuiltUserAttributes) |
| Records.EntryRecords | src/utils/ldap/LdapProxy.java:125-167 | one user per entry |
| Records.BuildRecordsFails | src/utils/ldap/LdapProxy.java:124-170 | building the users of several entries fails exactly when one entry's user fails, and then with the first failing entry's error |
| Records.BuildRecordsShape | src/utils/ldap/LdapProxy.java:125-167 | otherwise there is one user per entry, in entry order, each with its entry's DN |
| Records.UsersOfEmpty | src/utils/ldap/LdapProxy.java:172-176 | no entries give null, and the result is never an empty list; with entries, a success is a list of one user per entry, and otherwise the first failure |
| Records.BuiltUserAttributes | src/utils/ldap/LdapProxy.java:139-163 | a user built with requested attributes holds one attribute per distinct typed name, in first-request order; the attribute under a name is built from the last typed request of that name |
| Records.BuiltMap | src/utils/ldap/User.java:40-48 | the list constructor, fed attributes built from the typed requests, keys the first occurrences of their names and stores each name's last-built attribute |
| Records.FriendlyNameAttributeAbsent | src/utils/ldap/LdapProxy.java:131-134 | an entry that lacks the friendly-name attribute gives a null friendly name, and lower-casing it throws a null dereference |
| Records.BareRecord | src/utils/ldap/LdapProxy.java:129-130 | without requested attributes the user is bare, and its friendly name is the lower-cased first RDN value |
| Records.FriendlyNameFromAttribute | src/utils/ldap/LdapProxy.java:131-134 | when a friendly-name attribute is given and the entry holds a value for it, the user's friendly name is its first value lower-cased |
| Records.FriendlyNameFromDn | src/utils/ldap/LdapProxy.java:129-130 | without a friendly-name attribute a built user's friendly name is the DN rule's result lower-cased, whatever attributes are requested |
| Records.BuildRecords | src/utils/ldap/LdapProxy.java:124-170 | the users of several entries: each entry's user in entry order, or the first failure (definition; proved about in BuildRecordsFails and BuildRecordsShape) |
| Records.UsersOf | src/utils/ldap/LdapProxy.java:172-176 | `getUsers` after the search: null for no entries, else the users or the failure (definition; proved about in UsersOfEmpty) |
| Records.ReturningAttributes | src/utils/ldap/LdapProxy.java:104-120 | the names asked for: the requested attributes' names, then the friendly-name attribute's (definition; stated about in Proxy.LdapProxy.ReturningNames) |
| Modify.ModOpRoundTrip | src/utils/ldap/LdapProxy.java:236-245 | ADD, SET and CLEAR map one-to-one onto add, replace and remove |
| Modify.ModOpOf | src/utils/ldap/LdapProxy.java:236-245 | ADD is sent as add, SET as replace, CLEAR as remove (definition; proved one-to-one in ModOpRoundTrip) |
| Modify.SentValues | src/utils/ldap/LdapProxy.java:223-229 | the values sent for a multi-valued attribute are exactly its non-null values, each once (their order is stated by SentValuesInOrder) |
| Modify.SentValuesKeepsDistinct | src/utils/ldap/LdapProxy.java:223-229 | values without nulls or repeats are sent as they are, in order |
| Modify.NonNull | src/utils/ldap/LdapProxy.java:224-229 | the non-null values of a list, in list order: a value is kept exactly when it occurs in the list |
| Modify.SentValuesInOrder | src/utils/ldap/LdapProxy.java:223-229 | the values sent are the non-null values in list order, each kept at its first occurrence |
| Modify.Encode | src/utils/ldap/LdapProxy.java:211-245 | the item built for one attribute (definition; proved about in EncodeShape and ClearIgnoresValue) |
| Modify.EncodeShape | src/utils/ldap/LdapProxy.java:211-245 | one item per attribute, with its name and the kind of its op; CLEAR sends no values; a single value is sent alone, a null one as none; a multi-valued attribute sends none for a null list, else its non-null values in list order, each at its first occurrence; only an untyped attribute that is not cleared fails (IllegalArgument) |
| Modify.ClearIgnoresValue | src/utils/ldap/LdapProxy.java:232-234 | a CLEAR item does not depend on the attribute's type or values |
| Modify.EncodeAll | src/utils/ldap/LdapProxy.java:210-248 | the items of a user's attributes in order, or the first failure (definition; proved about in EncodeAllShape) |
| Modify.RequestOf | src/utils/ldap/LdapProxy.java:205-250 | the modify request of one user: its DN, the items of its attributes, and the request controls the context sends with it (definition) |
| Modify.Run | src/utils/ldap/LdapProxy.java:204-251 | the requests sent and applied and the outcome of the user loop against scripted outcomes (definition; proved about in RunApplied and RunStops) |
| Modify.ModifyAll | src/utils/ldap/LdapProxy.java:202-251 | `modifyUsers` as a run of the users' requests (definition; proved about in ModifyAllShape) |
| Modify.EncodeAllShape | src/utils/ldap/LdapProxy.java:210-248 | a user's items are one per attribute, in attribute order, each that attribute's own encoding; the user fails exactly when one attribute fails |
| Modify.Requests | src/utils/ldap/LdapProxy.java:204-207 | one request per user |
| Modify.RunApplied | src/utils/ldap/LdapProxy.java:204-251 | the requests applied are a prefix of the users' requests, each with a passing outcome; the run passes exactly when every user was applied, and then nothing else was sent |
| Modify.RunStops | src/utils/ldap/LdapProxy.java:204-251 | a failing run stopped at the first user not applied: that request either could not be built, and nothing more was sent, or it was sent and the directory's answer was the failure |
| Modify.ModifyAllShape | src/utils/ldap/LdapProxy.java:202-251 | `modifyUsers` as its users see it: the users are processed in list order, one request each, carrying the context's request controls, until the first failure; earlier users are not rolled back |
| Modify.ModifyOne | src/utils/ldap/LdapProxy.java:186-190 | `modifyUser` sends the one user's request, with the context's request controls, and reports its outcome, or fails before sending when its items cannot be built |
| Modify.EmptyUserRequest | src/utils/ldap/LdapProxy.java:206-207 | a user without attributes still gets a request, with no items and with the context's request controls |
| Proxy.CollectValues | src/utils/ldap/LdapProxy.java:150-155 | the enumeration loop copies every value in order |
| Proxy.AddValues | src/utils/ldap/LdapProxy.java:223-229 | the loop adding non-null values to a BasicAttribute yields `SentValues` |
| Proxy.EncodeAttribute | src/utils/ldap/LdapProxy.java:211-245 | the item built for an attribute object is the encoding of its value |
| Proxy.EncodeList | src/utils/ldap/LdapProxy.java:210-248 | the loop over a user's attributes yields the items of their values, or the first failure |
| Proxy.EncodeUser | src/utils/ldap/LdapProxy.java:205-248 | the items of a user follow the order of `getUserAttributes` |
| Proxy.ExtractOne | src/utils/ldap/LdapProxy.java:140-160 | the attribute object built for one request is new and has the value `Extract` specifies, or the same failure |
| Proxy.ExtractAttributes | src/utils/ldap/LdapProxy.java:139-161 | the attribute objects built for the requests have, in order, the values `ExtractAll` specifies, or its failure |
| Proxy.ReadFriendlyName | src/utils/ldap/LdapProxy.java:128-134 | the friendly name is read from the DN or from the friendly-name attribute, as `RawFriendlyName` specifies |
| Proxy.AssembleUser | src/utils/ldap/LdapProxy.java:162-165 | the new user object has the value `Assemble` specifies, or the same failure |
| Proxy.BuildUser | src/utils/ldap/LdapProxy.java:126-166 | the user object built from one entry is new and has the value `BuildRecord` specifies, or the same failure |
| Proxy.BuildStep | src/utils/ldap/LdapProxy.java:126-166 | one round of the entry loop extends the users so far by the entry's user, or fails them all |
| Proxy.BuildLoop | src/utils/ldap/LdapProxy.java:124-170 | the entry loop yields users whose values are `BuildRecords` of the entries, in order, and records whether any entry was seen |
| Proxy.BuildEach | src/utils/ldap/LdapProxy.java:124-170 | as BuildLoop, for the request values of the attribute objects |
| Proxy.BuildUsers | src/utils/ldap/LdapProxy.java:124-176 | null when no entry was found and never an empty list; otherwise one user per entry, in entry order, with the values `UsersOf` specifies |
| Proxy.LdapProxy.constructor | src/utils/ldap/LdapProxy.java:51-63 | a search limit of 0 selects plain searches; any other limit selects paged searches with that page size; no context yet |
| Proxy.LdapProxy.OpenLdapConnection | src/utils/ldap/LdapProxy.java:331-340 | the context becomes the given session, and no other field changes |
| Proxy.LdapProxy.PageRound | src/utils/ldap/LdapProxy.java:279-292 | one round of the do-while loop: the search is logged, and either the loop ends with the result of the whole paged run, or the entries accumulate and the next control carries the cookie just read |
| Proxy.LdapProxy.LdapSearch | src/utils/ldap/LdapProxy.java:264-309 | a paged search returns the result of `PagedLoop` from a non-critical control without cookie, logs one search per round with that round's control, and leaves the last control and the last round's response controls on the context; a plain search makes one request with the controls already set, returns its entries, and leaves that reply's response controls on the context |
| Proxy.LdapProxy.SearchedSide | src/utils/ldap/LdapProxy.java:264-309 | the search state a search leaves on the context: replies consumed, last control, response controls, and the requests logged (definition; used by GetUsers and GetUser) |
| Proxy.LdapProxy.ReturningNames | src/utils/ldap/LdapProxy.java:104-120 | the names asked for are the requested attributes' names, then the friendly-name attribute's; none when there is neither |
| Proxy.LdapProxy.GetUsers | src/utils/ldap/LdapProxy.java:101-177 | fails when not connected or when the search fails; otherwise null for no entries, else the users of the entries found, in order, as `UsersOf` specifies; every search request sent (one per page round in paged mode) asks for `ReturningAttributes` of the requests, and the context's search state afterwards is that search's (`SearchedSide`); no modify request is sent |
| Proxy.LdapProxy.GetUser | src/utils/ldap/LdapProxy.java:77-84 | the first user `getUsers` finds, or null when it finds none; its failures, the search sent and the context state afterwards are the same as for `getUsers` |
| Proxy.LdapProxy.SendUser | src/utils/ldap/LdapProxy.java:204-250 | builds one user's items; a user whose items cannot be built sends nothing; otherwise one modify request with the user's DN and items and the context's current request controls is sent, and its outcome is the directory's answer |
| Proxy.LdapProxy.SendStep | src/utils/ldap/LdapProxy.java:204-251 | one round of the user loop: the run ends with the failure, or the user's request joins the applied ones |
| Proxy.LdapProxy.SendAll | src/utils/ldap/LdapProxy.java:204-251 | the loop over the users sends and applies exactly what `Run` of their requests specifies, and leaves the search state unchanged |
| Proxy.LdapProxy.ModifyUsers | src/utils/ldap/LdapProxy.java:202-252 | the requests attempted, the requests applied, the outcome and the outcomes left are those of `ModifyAll` on the users' values and the request controls set on the context when the call starts |
| Proxy.LdapProxy.ModifyUser | src/utils/ldap/LdapProxy.java:186-190 | `modifyUser` is `modifyUsers` on the one-user list, with the context's request controls, and leaves the search state unchanged |

## Left out

- Proxy.LdapProxy.GetUsers: the contract does not state that the users in the returned list are new objects. Proxy.BuildUser states this for each user it builds. A freshness invariant over the whole list made the proof too costly.
- Proxy.LdapProxy.GetUser: for the same reason, the contract does not state that the user returned is a new object.
- `openLdapConnection` is modelled only as installing a session. The JNDI environment, the URL, simple bind with the stored credentials, and connection pooling are left out; they are external I/O.
- `closeLdapConnection` and the `ldapModify` wrapper are left out. The first is external I/O. The second only forwards to the context, which `Directory.Session.ModifyAttributes` models.
- The directory itself is a script of replies and modify outcomes. What the server does with a request is not modelled: a duplicate ADD, REPLACE with no values, or how pages are sized. So the claim that paged and plain searches return the same entries is not modelled, and neither is the claim that the number of rounds is `ceil(n / p)`.
- A script that is used up fails the next request as a lost connection. This is the model's own rule, not the library's.
- Paging.PagedLoop: when the directory keeps answering a non-null cookie with pages whose response controls are null or hold no paged-results control, the library loops forever, resending the same cookie. The model's loop ends when the scripted replies run out, with a lost connection (Paging.StuckCookieUsesScript).
- IOException from the paged-results control constructor, and the BER encoding of controls, are not modelled. A cookie is an opaque byte sequence, and only null versus non-null matters.
- `BasicAttribute` is modelled as the sequence of its distinct values in insertion order, which is the order in which it stores and encodes them. Its dropping of duplicate values on `add` is modelled.
- Lower-casing is ASCII-only. `String.toLowerCase` with locale rules is not modelled.
- Attribute lookup in a search entry is exact. JNDI's case-insensitive attribute names are not modelled.
- The `(String)` casts of attribute values are left out: entries hold strings only, so no ClassCastException arises.
- The getters and setters of `User` that only read or assign one field are field accesses in the model (`getDistinguishedName`, `setDistinguishedName`, `getFriendlyName`, `setFriendlyName`). So are `getName`, `getType` and `getOp` of `UserAttribute`.
- Null attribute names, null DNs, null ops, null list arguments, null object arguments (such as the attribute passed to `hasSameValue` or to `addUserAttribute`), and null elements of the user list and of the requested-attribute list are not modelled. A null type, a null value, a null value list, a null element of a value list (skipped when the values are sent), a null friendly-name attribute and a null requested-attribute list are modelled.
- Lists are values. Aliasing between a list passed in and a list stored, such as the multi-valued list kept by reference, is not modelled.
- `toString` of `User` and `UserAttribute` is left out; it is display formatting only.
- Concurrency is left out: the model assumes sequential use of one proxy and its context.
- `AttributeType.java` and `AttributeOp.java` are not part of this model. Their constants are taken from their uses: two arities and three ops.
