/** The paged search of section 3 of RFC 2696 as the client drives it: the
    first request carries a non-critical page control without cookie; after
    each round the cookie of the last paged-results response control (if any)
    replaces the loop's cookie, the request control is reset to a critical one
    carrying it, and the loop goes on while the cookie is not null. */
module Paging {
  import opened Common
  import opened Directory

  /** The cookie of the last paged-results control of `cs`, or `prev` when `cs` holds none. */
  function LastPagedCookie(prev: Option<Cookie>, cs: seq<ResponseControl>): Option<Cookie>
    decreases |cs|
  {
    if cs == [] then prev
    else if cs[|cs| - 1].PagedResponse? then cs[|cs| - 1].cookie
    else LastPagedCookie(prev, cs[..|cs| - 1])
  }

  /** The loop's cookie after reading the response controls of a round. */
  function LatestCookie(prev: Option<Cookie>, controls: Option<seq<ResponseControl>>): Option<Cookie> {
    if controls.None? then prev else LastPagedCookie(prev, controls.value)
  }

  /** Among several paged-results controls the last one wins; without any, the
      previous cookie stays. */
  lemma {:induction false} LastPagedCookieWins(prev: Option<Cookie>, cs: seq<ResponseControl>, i: int)
    requires -1 <= i < |cs|
    requires i >= 0 ==> cs[i].PagedResponse?
    requires forall j :: i < j < |cs| ==> !cs[j].PagedResponse?
    ensures LastPagedCookie(prev, cs) == if i < 0 then prev else cs[i].cookie
    decreases |cs|
  {
    if cs != [] && i < |cs| - 1 {
      LastPagedCookieWins(prev, cs[..|cs| - 1], i);
    }
  }

  /** The loop over `getResponseControls()` that reads the cookie. */
  method ReadCookie(prev: Option<Cookie>, pagedControls: Option<seq<ResponseControl>>) returns (cookie: Option<Cookie>)
    ensures cookie == LatestCookie(prev, pagedControls)
  {
    cookie := prev;
    if pagedControls.Some? {
      var cs := pagedControls.value;
      for i := 0 to |cs|
        invariant cookie == LastPagedCookie(prev, cs[..i])
      {
        assert cs[..i + 1][..i] == cs[..i];
        if cs[i].PagedResponse? {
          cookie := cs[i].cookie;
        }
      }
      assert cs[..|cs|] == cs;
    }
  }

  /** The control set before the first round. */
  function FirstControl(pageSize: int): PageControl {
    PageControl(pageSize, None, false)
  }

  /** What the paged loop does: the result, the request control sent with each
      round, the request control left on the context, and the response
      controls of the last round. */
  datatype PagedRun = PagedRun(
    result: Result<seq<Entry>>,
    sent: seq<PageControl>,
    left: PageControl,
    response: Option<seq<ResponseControl>>)

  /** The rounds of the loop from request control `ctl` on; the loop's cookie
      variable is `ctl.cookie` when the round starts. */
  function PagedLoop(replies: seq<Reply>, ctl: PageControl): (run: PagedRun)
    ensures |run.sent| >= 1 && run.sent[0] == ctl
    decreases |replies|
  {
    if replies == [] then PagedRun(Err(Communication), [ctl], ctl, None)
    else match replies[0]
      case Refused(e) => PagedRun(Err(e), [ctl], ctl, None)
      case Page(entries, controls) =>
        var cookie := LatestCookie(ctl.cookie, controls);
        var next := PageControl(ctl.pageSize, cookie, true);
        if cookie.None? then PagedRun(Ok(entries), [ctl], next, controls)
        else
          var rest := PagedLoop(replies[1..], next);
          PagedRun(if rest.result.Ok? then Ok(entries + rest.result.value) else rest.result,
                   [ctl] + rest.sent, rest.left, rest.response)
  }

  /** Prefixes a run with rounds already done (entries `acc`, controls `sent`). */
  function AfterRounds(acc: seq<Entry>, sent: seq<PageControl>, run: PagedRun): PagedRun {
    PagedRun(if run.result.Ok? then Ok(acc + run.result.value) else run.result,
             sent + run.sent, run.left, run.response)
  }

  /** The entries of the pages among `rs`, in order. */
  function AllEntries(rs: seq<Reply>): seq<Entry> {
    if rs == [] then [] else (if rs[0].Page? then rs[0].entries else []) + AllEntries(rs[1..])
  }

  /** How many scripted replies a run consumes (the request of the last round
      may find the script used up). */
  function Consumed(replies: seq<Reply>, run: PagedRun): nat {
    if |run.sent| <= |replies| then |run.sent| else |replies|
  }

  /** Every round but the first carries a critical control with the cookie
      read from the previous round's response, and that cookie is not null;
      every round before the last got a page. */
  lemma {:induction false} PagedRequestChain(replies: seq<Reply>, ctl: PageControl)
    ensures var run := PagedLoop(replies, ctl);
      && |run.sent| <= |replies| + 1
      && (forall j :: 0 <= j < |run.sent| - 1 ==> replies[j].Page?)
      && (forall j :: 1 <= j < |run.sent| ==>
            run.sent[j] == PageControl(ctl.pageSize, LatestCookie(run.sent[j - 1].cookie, replies[j - 1].controls), true)
            && run.sent[j].cookie.Some?)
    decreases |replies|
  {
    var run := PagedLoop(replies, ctl);
    if replies != [] && replies[0].Page? {
      var cookie := LatestCookie(ctl.cookie, replies[0].controls);
      if cookie.Some? {
        var next := PageControl(ctl.pageSize, cookie, true);
        PagedRequestChain(replies[1..], next);
        var rest := PagedLoop(replies[1..], next);
        assert run.sent == [ctl] + rest.sent;
        forall j | 1 <= j < |run.sent|
          ensures run.sent[j] == PageControl(ctl.pageSize, LatestCookie(run.sent[j - 1].cookie, replies[j - 1].controls), true)
          ensures run.sent[j].cookie.Some?
        {
          if j == 1 {
            assert run.sent[1] == rest.sent[0] == next;
          } else {
            assert run.sent[j] == rest.sent[j - 1] && run.sent[j - 1] == rest.sent[j - 2];
            assert replies[j - 1] == replies[1..][j - 2];
          }
        }
        forall j | 0 <= j < |run.sent| - 1 ensures replies[j].Page? {
          if j > 0 { assert replies[j] == replies[1..][j - 1]; }
        }
      }
    }
  }

  /** A run succeeds exactly when its last round got a page; then the loop
      stopped because that page left the cookie null, the result is every page's
      entries in round order, and a critical control without cookie is left on
      the context. A failing run reports the failure of its last round. */
  lemma {:induction false} PagedOutcome(replies: seq<Reply>, ctl: PageControl)
    ensures var run := PagedLoop(replies, ctl);
      var last := |run.sent| - 1;
      && last <= |replies|
      && (run.result.Ok? <==> last < |replies| && replies[last].Page?)
      && (run.result.Ok? ==>
            && LatestCookie(run.sent[last].cookie, replies[last].controls).None?
            && run.result.value == AllEntries(replies[..|run.sent|])
            && run.left == PageControl(ctl.pageSize, None, true)
            && run.response == replies[last].controls)
      && (run.result.Err? ==>
            if last == |replies| then run.result.error == Communication
            else replies[last].Refused? && run.result.error == replies[last].error)
    decreases |replies|
  {
    var run := PagedLoop(replies, ctl);
    if replies != [] && replies[0].Page? {
      var cookie := LatestCookie(ctl.cookie, replies[0].controls);
      if cookie.None? {
        assert replies[..1] == [replies[0]];
        assert AllEntries(replies[..1]) == replies[0].entries + AllEntries([]);
      } else {
        var next := PageControl(ctl.pageSize, cookie, true);
        PagedOutcome(replies[1..], next);
        var rest := PagedLoop(replies[1..], next);
        var last := |run.sent| - 1;
        assert run.sent == [ctl] + rest.sent;
        assert last >= 1 && run.sent[last] == rest.sent[last - 1];
        if last <= |replies[1..]| {
          assert replies[last] == replies[1..][last - 1];
        }
        if rest.result.Ok? {
          assert replies[..|run.sent|] == [replies[0]] + replies[1..][..|rest.sent|];
          assert AllEntries(replies[..|run.sent|]) == replies[0].entries + AllEntries(replies[1..][..|rest.sent|]);
        }
      }
    }
  }

  /** A first reply without a paged-results control ends the loop after one
      round: the cookie stays null. */
  lemma FirstPageWithoutControl(replies: seq<Reply>, pageSize: int)
    requires replies != [] && replies[0].Page?
    requires replies[0].controls.Some? ==> forall i :: 0 <= i < |replies[0].controls.value| ==> !replies[0].controls.value[i].PagedResponse?
    ensures PagedLoop(replies, FirstControl(pageSize)) ==
      PagedRun(Ok(replies[0].entries), [FirstControl(pageSize)], PageControl(pageSize, None, true), replies[0].controls)
  {
    if replies[0].controls.Some? {
      LastPagedCookieWins(None, replies[0].controls.value, -1);
    }
  }

  /** A directory that keeps answering with pages but stops sending a
      paged-results response control (no response controls at all, or none of
      the paged-results kind) never clears a non-null cookie: the loop re-sends
      the same cookie round after round and ends only when the script of
      replies is used up. */
  lemma {:induction false} StuckCookieUsesScript(replies: seq<Reply>, ctl: PageControl)
    requires ctl.cookie.Some?
    requires forall j :: 0 <= j < |replies| ==>
      && replies[j].Page?
      && (replies[j].controls.Some? ==> forall k :: 0 <= k < |replies[j].controls.value| ==> !replies[j].controls.value[k].PagedResponse?)
    ensures var run := PagedLoop(replies, ctl);
      && run.result == Err(Communication)
      && |run.sent| == |replies| + 1
      && forall j :: 0 <= j < |run.sent| ==> run.sent[j].cookie == ctl.cookie
    decreases |replies|
  {
    if replies != [] {
      var next := PageControl(ctl.pageSize, ctl.cookie, true);
      if replies[0].controls.Some? {
        LastPagedCookieWins(ctl.cookie, replies[0].controls.value, -1);
      }
      StuckCookieUsesScript(replies[1..], next);
      var run, rest := PagedLoop(replies, ctl), PagedLoop(replies[1..], next);
      assert run.sent == [ctl] + rest.sent;
      forall j | 0 <= j < |run.sent| ensures run.sent[j].cookie == ctl.cookie {
        if j > 0 { assert run.sent[j] == rest.sent[j - 1]; }
      }
    }
  }

  /** One more round with a non-null cookie, seen from the rounds already done. */
  lemma PagedStep(acc: seq<Entry>, sent: seq<PageControl>, replies: seq<Reply>, ctl: PageControl)
    requires replies != [] && replies[0].Page?
    requires LatestCookie(ctl.cookie, replies[0].controls).Some?
    ensures AfterRounds(acc, sent, PagedLoop(replies, ctl)) ==
      AfterRounds(acc + replies[0].entries, sent + [ctl],
            PagedLoop(replies[1..], PageControl(ctl.pageSize, LatestCookie(ctl.cookie, replies[0].controls), true)))
  {
    var rest := PagedLoop(replies[1..], PageControl(ctl.pageSize, LatestCookie(ctl.cookie, replies[0].controls), true));
    if rest.result.Ok? {
      assert acc + (replies[0].entries + rest.result.value) == (acc + replies[0].entries) + rest.result.value;
    }
    assert sent + ([ctl] + rest.sent) == (sent + [ctl]) + rest.sent;
  }
}
