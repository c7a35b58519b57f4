/** The directory context the client talks to, reduced to what the client
    observes. The directory's answers are a script fixed in advance: search
    replies (entries plus response controls, or a failure) and modify outcomes,
    consumed one per request. Once a script is used up, further requests fail
    as if the connection were lost. The context also keeps the request
    controls set on it, the response controls of its last search, and logs of
    every search and modify request it received. */
module Directory {
  import opened Common

  /** The opaque continuation cookie of paged results (section 3 of RFC 2696). */
  type Cookie = seq<bv8>

  /** The paged-results request control: page size, cookie, criticality. */
  datatype PageControl = PageControl(pageSize: int, cookie: Option<Cookie>, critical: bool)

  /** A response control: the paged-results one, whose cookie may be absent,
      or any other control. */
  datatype ResponseControl = PagedResponse(cookie: Option<Cookie>) | OtherResponse

  /** A search result: its DN and its attributes with their values in order. */
  datatype Entry = Entry(dn: string, attributes: map<string, seq<string>>)

  /** What the directory answers to one search request. */
  datatype Reply =
    | Page(entries: seq<Entry>, controls: Option<seq<ResponseControl>>)
    | Refused(error: Exception)

  /** A search request: base, filter, and the attribute names to return. */
  datatype Query = Query(baseDN: string, filter: string, returning: seq<string>)

  datatype SearchCall = SearchCall(query: Query, controls: seq<PageControl>)

  /** The three modification kinds of section 4.6 of RFC 4511. */
  datatype ModOp = ModAdd | ModReplace | ModRemove

  /** An attribute of a modify request: its name and its values (possibly none). */
  datatype BasicAttribute = BasicAttribute(id: string, values: seq<string>)

  datatype ModificationItem = ModificationItem(op: ModOp, attribute: BasicAttribute)

  /** A modify request as the directory receives it: the DN, the items, and
      the request controls set on the context when it was sent. */
  datatype ModifyCall = ModifyCall(dn: string, items: seq<ModificationItem>, controls: seq<PageControl>)

  /** The search side of a context: replies left, request controls,
      response controls of the last search, and the search log. */
  type SearchState = (seq<Reply>, seq<PageControl>, Option<seq<ResponseControl>>, seq<SearchCall>)

  class Session {
    var replies: seq<Reply>
    var requestControls: seq<PageControl>
    var responseControls: Option<seq<ResponseControl>>
    var searches: seq<SearchCall>
    var modifyOutcomes: seq<Outcome>
    var attempted: seq<ModifyCall>
    var applied: seq<ModifyCall>

    /** A fresh connection: no controls, empty logs. */
    constructor (replies: seq<Reply>, modifyOutcomes: seq<Outcome>)
      ensures this.replies == replies && this.modifyOutcomes == modifyOutcomes
      ensures requestControls == [] && responseControls == None
      ensures searches == [] && attempted == [] && applied == []
    {
      this.replies := replies;
      this.modifyOutcomes := modifyOutcomes;
      requestControls := [];
      responseControls := None;
      searches := [];
      attempted := [];
      applied := [];
    }

    /** The part of the context that only searches touch. */
    ghost function SearchSide(): SearchState
      reads this
    {
      (replies, requestControls, responseControls, searches)
    }

    /** The part of the context that only modify requests touch. */
    ghost function ModifySide(): (seq<Outcome>, seq<ModifyCall>, seq<ModifyCall>)
      reads this
    {
      (modifyOutcomes, attempted, applied)
    }

    /** `setRequestControls`: the controls sent with every later request. */
    method SetRequestControls(controls: seq<PageControl>)
      modifies this
      ensures requestControls == controls
      ensures replies == old(replies) && responseControls == old(responseControls) && searches == old(searches)
      ensures modifyOutcomes == old(modifyOutcomes) && attempted == old(attempted) && applied == old(applied)
    {
      requestControls := controls;
    }

    /** `search`: logs the request and consumes the next scripted reply. */
    method Search(query: Query) returns (r: Result<seq<Entry>>)
      modifies this
      ensures searches == old(searches) + [SearchCall(query, old(requestControls))]
      ensures old(replies) == [] ==> r == Err(Communication) && replies == [] && responseControls == None
      ensures old(replies) != [] ==> replies == old(replies)[1..]
      ensures old(replies) != [] && old(replies)[0].Refused? ==>
        r == Err(old(replies)[0].error) && responseControls == None
      ensures old(replies) != [] && old(replies)[0].Page? ==>
        r == Ok(old(replies)[0].entries) && responseControls == old(replies)[0].controls
      ensures requestControls == old(requestControls)
      ensures modifyOutcomes == old(modifyOutcomes) && attempted == old(attempted) && applied == old(applied)
    {
      searches := searches + [SearchCall(query, requestControls)];
      if replies == [] {
        responseControls := None;
        return Err(Communication);
      }
      var reply := replies[0];
      replies := replies[1..];
      match reply
      case Refused(e) =>
        responseControls := None;
        r := Err(e);
      case Page(entries, controls) =>
        responseControls := controls;
        r := Ok(entries);
    }

    /** `getResponseControls`: the response controls of the last search. */
    method GetResponseControls() returns (r: Option<seq<ResponseControl>>)
      ensures r == responseControls
    {
      r := responseControls;
    }

    /** `modifyAttributes`: logs the request, with the request controls set on
        the context, and consumes the next scripted outcome; a request that
        passes is applied by the directory. */
    method ModifyAttributes(dn: string, items: seq<ModificationItem>) returns (o: Outcome)
      modifies this
      ensures attempted == old(attempted) + [ModifyCall(dn, items, requestControls)]
      ensures old(modifyOutcomes) == [] ==> o == Fail(Communication) && modifyOutcomes == []
      ensures old(modifyOutcomes) != [] ==> o == old(modifyOutcomes)[0] && modifyOutcomes == old(modifyOutcomes)[1..]
      ensures applied == if o.Pass? then old(applied) + [ModifyCall(dn, items, requestControls)] else old(applied)
      ensures replies == old(replies) && requestControls == old(requestControls)
      ensures responseControls == old(responseControls) && searches == old(searches)
    {
      attempted := attempted + [ModifyCall(dn, items, requestControls)];
      if modifyOutcomes == [] {
        return Fail(Communication);
      }
      o := modifyOutcomes[0];
      modifyOutcomes := modifyOutcomes[1..];
      if o.Pass? {
        applied := applied + [ModifyCall(dn, items, requestControls)];
      }
    }
  }
}
