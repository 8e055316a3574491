/**
 Collecting a server's tools page by page.

 The replies of the server are a finite sequence `replies`: the i-th is what the
 i-th request gets, so a server may answer the same cursor differently each time.
 A listing that has used them all up is still waiting for the next one.
 */
module Pagination {
  const MAX_TOOLS: nat := 100

  datatype Tool = Tool(name: string, description: string, inputSchema: string)

  /** A reply that carries no page: a transport error, no JSON-RPC, or a refusal. */
  datatype Reply = Failed | Page(items: seq<Tool>, next: string)

  datatype Outcome = Waiting | Error | Listed(tools: seq<Tool>, truncated: bool)

  datatype Request = Request(id: int, cursor: string)

  // ---------------------------------------------------------- what a listing means

  function Named(items: seq<Tool>): seq<Tool> {
    if items == [] then []
    else
      var front, last := Named(items[..|items| - 1]), items[|items| - 1];
      if last.name == "" then front else front + [last]
  }

  /** Every named tool of the pages, in order. */
  function Fetched(replies: seq<Reply>): seq<Tool> {
    if replies == [] then []
    else
      var front, last := Fetched(replies[..|replies| - 1]), replies[|replies| - 1];
      if last.Page? then front + Named(last.items) else front
  }

  function First(tools: seq<Tool>, n: nat): seq<Tool> {
    if |tools| <= n then tools else tools[..n]
  }

  /** The first request has no cursor, each later one the cursor of the page before. */
  function CursorOf(replies: seq<Reply>, i: nat): string
    requires i <= |replies|
  {
    if i > 0 && replies[i - 1].Page? then replies[i - 1].next else ""
  }

  ghost predicate Full(replies: seq<Reply>, i: nat)
    requires i < |replies|
  {
    |Fetched(replies[..i + 1])| >= MAX_TOOLS
  }

  /** The i-th reply is a page after which nothing more is asked. */
  ghost predicate Final(replies: seq<Reply>, i: nat)
    requires i < |replies|
  {
    && replies[i].Page?
    && (Full(replies, i) || replies[i].next == "" || replies[i].next == CursorOf(replies, i))
  }

  ghost predicate Continues(replies: seq<Reply>, i: nat)
    requires i < |replies|
  {
    replies[i].Page? && !Final(replies, i)
  }

  /** Every tool that was fetched is listed, up to the cap. */
  ghost predicate Lists(replies: seq<Reply>, i: nat, out: Outcome)
    requires i < |replies| && replies[i].Page?
  {
    && out.Listed?
    && out.tools == First(Fetched(replies[..i + 1]), MAX_TOOLS)
    && (out.truncated <==> |Fetched(replies[..i + 1])| > MAX_TOOLS || (Full(replies, i) && replies[i].next != ""))
  }

  /** Requests and outcome of one listing against these replies. */
  ghost predicate IsListing(replies: seq<Reply>, requests: seq<Request>, out: Outcome) {
    && 1 <= |requests| <= |replies| + 1
    && (forall i :: 0 <= i < |requests| ==> requests[i] == Request(2 + i, CursorOf(replies, i)))
    && (forall i :: 0 <= i < |requests| - 1 ==> Continues(replies, i))
    && match out
       case Waiting => |requests| == |replies| + 1
       case Error => |requests| <= |replies| && replies[|requests| - 1] == Failed
       case Listed(_, _) =>
         && |requests| <= |replies|
         && Final(replies, |requests| - 1)
         && Lists(replies, |requests| - 1, out)
  }

  // --------------------------------------------------------------------- the code

  /** One reply: nameless tools are dropped. */
  method ListToolsPage(items: seq<Tool>) returns (tools: seq<Tool>)
    ensures tools == Named(items)
  {
    tools := [];
    for i := 0 to |items|
      invariant tools == Named(items[..i])
    {
      assert items[..i + 1][..i] == items[..i];
      if items[i].name == "" {
        continue;
      }
      tools := tools + [items[i]];
    }
    assert items[..|items|] == items;
  }

  /** Appends a page to what has been collected, and notices what does not fit. */
  method Collect(sofar: seq<Tool>, page: seq<Tool>) returns (tools: seq<Tool>, dropped: bool)
    requires |sofar| < MAX_TOOLS
    ensures tools == First(sofar + page, MAX_TOOLS)
    ensures dropped <==> |sofar + page| > MAX_TOOLS
  {
    tools, dropped := sofar, false;
    for i := 0 to |page|
      invariant !dropped && tools == sofar + page[..i] && |tools| <= MAX_TOOLS
    {
      if |tools| >= MAX_TOOLS {
        dropped := true;
        break;
      }
      tools := tools + [page[i]];
    }
    if !dropped {
      assert page[..|page|] == page;
    }
  }

  method ListTools(replies: seq<Reply>) returns (requests: seq<Request>, out: Outcome)
    ensures IsListing(replies, requests, out)
  {
    var tools: seq<Tool>, truncated, cursor, reqID := [], false, "", 2;
    requests := [Request(reqID, cursor)];
    for i := 0 to |replies|
      invariant requests == seq(i + 1, j requires 0 <= j <= i => Request(2 + j, CursorOf(replies, j)))
      invariant cursor == CursorOf(replies, i) && reqID == 2 + i
      invariant forall j :: 0 <= j < i ==> Continues(replies, j)
      invariant tools == Fetched(replies[..i]) && |tools| < MAX_TOOLS && !truncated
    {
      if replies[i].Failed? {
        return requests, Error;
      }
      var nextCursor := replies[i].next;
      assert replies[..i + 1][..i] == replies[..i];
      var page := ListToolsPage(replies[i].items);
      tools, truncated := Collect(tools, page);
      if |tools| >= MAX_TOOLS {
        if nextCursor != "" || |page| > MAX_TOOLS {
          truncated := true;
        }
        return requests, Listed(tools, truncated);
      }
      if nextCursor == "" || nextCursor == cursor {
        return requests, Listed(tools, truncated);
      }
      cursor := nextCursor;
      reqID := reqID + 1;
      requests := requests + [Request(reqID, cursor)];
    }
    out := Waiting;
  }

  // ------------------------------------------------------------- what follows

  /** The replies alone decide what is asked and what comes out. */
  lemma ListingIsDetermined(replies: seq<Reply>, asked: seq<Request>, out: Outcome, asked': seq<Request>, out': Outcome)
    requires IsListing(replies, asked, out) && IsListing(replies, asked', out')
    ensures asked == asked' && out == out'
  {
    StopsWhereItStops(replies, asked, out, asked', out');
    StopsWhereItStops(replies, asked', out', asked, out);
  }

  /** No listing goes on after a reply at which another one stopped. */
  lemma StopsWhereItStops(replies: seq<Reply>, asked: seq<Request>, out: Outcome, asked': seq<Request>, out': Outcome)
    requires IsListing(replies, asked, out) && IsListing(replies, asked', out')
    ensures |asked'| <= |asked|
  {
    if out.Error? {
      assert !Continues(replies, |asked| - 1);
    } else if out.Listed? {
      assert !Continues(replies, |asked| - 1);
    }
  }

  /** A page that is not the last one but names a tool. */
  ghost predicate Productive(replies: seq<Reply>, i: nat)
    requires i < |replies|
  {
    replies[i].Page? && Named(replies[i].items) != []
  }

  lemma {:induction false} ProductivePagesAddUp(replies: seq<Reply>, n: nat)
    requires n <= |replies|
    requires forall i :: 0 <= i < n ==> Productive(replies, i)
    ensures |Fetched(replies[..n])| >= n
  {
    if n > 0 {
      ProductivePagesAddUp(replies, n - 1);
      assert replies[..n][..n - 1] == replies[..n - 1];
      assert Productive(replies, n - 1);
    }
  }

  /** If every page that leads on names a tool, there are at most as many requests as the cap. */
  lemma RequestsAreBounded(replies: seq<Reply>, requests: seq<Request>, out: Outcome)
    requires IsListing(replies, requests, out)
    requires forall i :: 0 <= i < |requests| - 1 ==> Productive(replies, i)
    ensures |requests| <= MAX_TOOLS
  {
    var n := |requests| - 1;
    if n > 0 {
      ProductivePagesAddUp(replies, n);
      assert Continues(replies, n - 1);
    }
  }

  /** Without pages that name tools there is no bound: any number of requests can be made. */
  lemma EmptyPagesAreUnbounded(n: nat) returns (replies: seq<Reply>, requests: seq<Request>)
    ensures |replies| == n && IsListing(replies, requests, Waiting)
    ensures forall i :: 0 <= i < n ==> replies[i].Page? && replies[i].items == []
    ensures forall i :: 0 <= i < n ==> replies[i].next in {"a", "b"}
  {
    replies := seq(n, i => Page([], if i % 2 == 0 then "a" else "b"));
    requests := seq(n + 1, i requires 0 <= i <= n => Request(2 + i, CursorOf(replies, i)));
    forall i | 0 <= i < n
      ensures Continues(replies, i)
    {
      NothingFetched(replies, i + 1);
      NewCursor(replies, i);
    }
  }

  lemma NewCursor(replies: seq<Reply>, i: nat)
    requires i < |replies|
    requires forall j :: 0 <= j < |replies| ==> replies[j] == Page([], if j % 2 == 0 then "a" else "b")
    ensures replies[i].next != "" && replies[i].next != CursorOf(replies, i)
  {
    var even, odd := "a", "b";
    assert even[0] != odd[0];
    if i > 0 {
      assert replies[i - 1] == Page([], if (i - 1) % 2 == 0 then even else odd);
      assert (i - 1) % 2 != i % 2;
    }
  }

  lemma {:induction false} NothingFetched(replies: seq<Reply>, n: nat)
    requires n <= |replies|
    requires forall i :: 0 <= i < n ==> replies[i].Page? && replies[i].items == []
    ensures Fetched(replies[..n]) == []
  {
    if n > 0 {
      NothingFetched(replies, n - 1);
      assert replies[..n][..n - 1] == replies[..n - 1];
    }
  }

  lemma {:induction false} FetchedMember(replies: seq<Reply>, i: nat, tool: Tool)
    requires i < |replies| && replies[i].Page? && tool in replies[i].items && tool.name != ""
    ensures tool in Fetched(replies)
  {
    var last := |replies| - 1;
    if i < last {
      FetchedMember(replies[..last], i, tool);
    } else {
      NamedMember(replies[i].items, tool);
    }
  }

  lemma {:induction false} NamedMember(items: seq<Tool>, tool: Tool)
    ensures tool in Named(items) <==> tool in items && tool.name != ""
  {
    if items != [] {
      assert items == items[..|items| - 1] + [items[|items| - 1]];
      NamedMember(items[..|items| - 1], tool);
    }
  }

  /**
   Nothing is lost silently: a listing not marked as truncated holds every named
   tool of every page, and the server offered no cursor it had not just been given.
   */
  lemma NothingIsLostSilently(replies: seq<Reply>, requests: seq<Request>, out: Outcome, i: nat, tool: Tool)
    requires IsListing(replies, requests, out) && out.Listed? && !out.truncated
    requires i < |requests| && replies[i].Page? && tool in replies[i].items && tool.name != ""
    ensures tool in out.tools
    ensures replies[|requests| - 1].next in {"", requests[|requests| - 1].cursor}
  {
    var last := |requests| - 1;
    FetchedMember(replies[..last + 1], i, tool);
  }

  /** Naming keeps the order: it goes through the items one after the other. */
  lemma {:induction false} NamedIs(a: seq<Tool>, tool: Tool, b: seq<Tool>)
    ensures Named([]) == []
    ensures Named(a + [tool] + b) == Named(a) + (if tool.name == "" then [] else [tool]) + Named(b)
  {
    var all := a + [tool] + b;
    if b == [] {
      assert all[..|all| - 1] == a && all[|all| - 1] == tool;
    } else {
      NamedIs(a, tool, b[..|b| - 1]);
      assert all[..|all| - 1] == a + [tool] + b[..|b| - 1] && all[|all| - 1] == b[|b| - 1];
    }
  }

  function Gives(reply: Reply): seq<Tool> {
    if reply.Page? then Named(reply.items) else []
  }

  lemma FetchedOneMore(replies: seq<Reply>, reply: Reply)
    ensures Fetched(replies + [reply]) == Fetched(replies) + Gives(reply)
  {
    assert (replies + [reply])[..|replies|] == replies;
  }

  /** What was fetched is every page's named tools, page after page. */
  lemma {:induction false} FetchedIs(a: seq<Reply>, reply: Reply, b: seq<Reply>)
    ensures Fetched([]) == []
    ensures Fetched(a + [reply] + b) == Fetched(a) + (if reply.Page? then Named(reply.items) else []) + Fetched(b)
  {
    if b == [] {
      FetchedOneMore(a, reply);
      assert a + [reply] + b == a + [reply];
    } else {
      var front, last := b[..|b| - 1], b[|b| - 1];
      FetchedIs(a, reply, front);
      FetchedOneMore(a + [reply] + front, last);
      FetchedOneMore(front, last);
      assert front + [last] == b;
      assert a + [reply] + b == a + [reply] + front + [last];
    }
  }

  /** The listed tools are the first ones fetched, a hundred at most. */
  lemma ListedAreTheFirst(replies: seq<Reply>, requests: seq<Request>, out: Outcome)
    requires IsListing(replies, requests, out) && out.Listed?
    ensures out.tools <= Fetched(replies[..|requests|])
    ensures |out.tools| == if |Fetched(replies[..|requests|])| <= 100 then |Fetched(replies[..|requests|])| else 100
  {
  }

  /** Request i asks for the page that the reply before it offered. */
  ghost predicate Follows(replies: seq<Reply>, requests: seq<Request>, i: nat) {
    && 0 < i <= |replies| && i < |requests|
    && replies[i - 1].Page? && requests[i] == Request(2 + i, replies[i - 1].next)
  }

  /** Requests are numbered from 2; the first has no cursor, each later one the cursor its page offered. */
  lemma RequestsAreChained(replies: seq<Reply>, requests: seq<Request>, out: Outcome)
    requires IsListing(replies, requests, out)
    ensures |requests| >= 1 && requests[0] == Request(2, "")
    ensures forall i: nat :: 1 <= i < |requests| ==> Follows(replies, requests, i)
  {
    forall i: nat | 1 <= i < |requests|
      ensures Follows(replies, requests, i)
    {
      assert Continues(replies, i - 1);
    }
  }

  /**
   When a listing stops, exactly: at a failure, with a hundred tools, or at a page
   that offers no cursor or the one just used.
   */
  lemma StopsExactly(replies: seq<Reply>, requests: seq<Request>, out: Outcome, i: nat)
    requires IsListing(replies, requests, out) && i < |requests| && i < |replies|
    ensures i == |requests| - 1 <==>
      replies[i] == Failed || |Fetched(replies[..i + 1])| >= 100 || replies[i].next in {"", requests[i].cursor}
  {
    assert i < |requests| - 1 ==> Continues(replies, i);
  }

  /** How a listing ends, and whether it says that something is missing. */
  lemma OutcomeExactly(replies: seq<Reply>, requests: seq<Request>, out: Outcome)
    requires IsListing(replies, requests, out) && |requests| <= |replies|
    ensures var last, fetched := replies[|requests| - 1], |Fetched(replies[..|requests|])|;
      && (out.Error? <==> last == Failed)
      && (out.Listed? <==> last.Page?)
      && (out.Listed? ==> (out.truncated <==> fetched > 100 || (fetched == 100 && last.next != "")))
  {
  }
}
