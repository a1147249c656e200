/** The paginated fetch of a contract's associated assets: pages 1, 2, ...
    are requested with `per_page=100`, and each page's `associated_assets`
    array is appended until a page answers with a status other than 200 or
    with an empty (or missing) array. */
module Pagination {
  import opened Records

  /** The contract whose assets are listed. */
  const ContractId: int := 37
  /** The page size sent with every request. */
  const PerPage: int := 100

  /** `GET /api/v2/contracts/{contract}/associated-assets?page={page}&per_page={perPage}` */
  datatype PageRequest = PageRequest(contract: int, page: nat, perPage: int)

  /** The server's answer to one page request: the status code and, for a
      200 reply, the `associated_assets` array (None when the key is absent
      or null). */
  datatype PageReply = PageReply(status: int, associatedAssets: Option<seq<Asset>>)

  /** `data.get("associated_assets", [])`, with an absent or null array read as empty. */
  function Items(p: PageReply): seq<Asset>
  {
    match p.associatedAssets
    case None => []
    case Some(a) => a
  }

  /** A page ends the walk when its status is not 200 or it carries no assets. */
  predicate Stops(p: PageReply)
  {
    p.status != 200 || Items(p) == []
  }

  /** The server, given as the replies to pages 1..|pages|; a page past the
      end of `pages` answers 200 with an empty array, as a listing that has
      run out does. */
  function ReplyTo(pages: seq<PageReply>, page: nat): (p: PageReply)
    requires page >= 1
    ensures page > |pages| ==> Stops(p)
  {
    if page <= |pages| then pages[page - 1] else PageReply(200, Some([]))
  }

  /** The specification of the walk: the assets of the leading pages that do
      not stop it, in order. */
  function Collected(pages: seq<PageReply>): (r: seq<Asset>)
    ensures |r| <= |Concat(pages)| && r == Concat(pages)[..|r|]
  {
    if pages == [] || Stops(pages[0]) then []
    else
      var rest := Collected(pages[1..]);
      assert (Items(pages[0]) + Concat(pages[1..]))[..|Items(pages[0])| + |rest|] == Items(pages[0]) + rest;
      Items(pages[0]) + rest
  }

  /** The number of leading pages that do not stop the walk: the walk
      requests pages 1..StopIndex(pages)+1 and the last of them stops it. */
  function StopIndex(pages: seq<PageReply>): (k: nat)
    ensures k <= |pages|
    ensures forall j :: 0 <= j < k ==> !Stops(pages[j])
    ensures k < |pages| ==> Stops(pages[k])
  {
    if pages == [] || Stops(pages[0]) then 0 else 1 + StopIndex(pages[1..])
  }

  /** All the assets of `pages`, in order (no page stops anything). */
  function Concat(pages: seq<PageReply>): seq<Asset>
  {
    if pages == [] then [] else Items(pages[0]) + Concat(pages[1..])
  }

  /** The fetch loop. `requests` is the sequence of GETs issued, in order.
      Every record gathered before a failing page is kept and no error is
      raised. */
  method FetchAssets(pages: seq<PageReply>) returns (assets: seq<Asset>, requests: seq<PageRequest>)
    ensures assets == Collected(pages)
    ensures |requests| == StopIndex(pages) + 1
    ensures forall i :: 0 <= i < |requests| ==> requests[i] == PageRequest(ContractId, i + 1, PerPage)
  {
    assets := [];
    requests := [];
    var page: nat := 1;
    while true
      invariant 1 <= page <= |pages| + 1
      invariant forall j :: 0 <= j < page - 1 ==> !Stops(pages[j])
      invariant assets + Collected(pages[page - 1..]) == Collected(pages)
      invariant |requests| == page - 1
      invariant forall i :: 0 <= i < |requests| ==> requests[i] == PageRequest(ContractId, i + 1, PerPage)
      decreases |pages| + 1 - page
    {
      requests := requests + [PageRequest(ContractId, page, PerPage)];
      var reply := ReplyTo(pages, page);
      if reply.status != 200 {
        break;
      }
      var batch := Items(reply);
      if batch == [] {
        break;
      }
      assert pages[page - 1..][1..] == pages[page..];
      assets := assets + batch;
      page := page + 1;
    }
    StopIndexAt(pages, page - 1);
  }

  /** The walk stops exactly at the first stopping page. */
  lemma {:induction false} StopIndexAt(pages: seq<PageReply>, k: nat)
    requires k <= |pages|
    requires forall j :: 0 <= j < k ==> !Stops(pages[j])
    requires k < |pages| ==> Stops(pages[k])
    ensures StopIndex(pages) == k
  {
    if k > 0 {
      assert !Stops(pages[0]);
      StopIndexAt(pages[1..], k - 1);
    }
  }

  /** Pagination returns the in-order concatenation of the arrays of the
      pages before the first stopping page. */
  lemma {:induction false} CollectedIsConcatBeforeStop(pages: seq<PageReply>)
    ensures Collected(pages) == Concat(pages[..StopIndex(pages)])
  {
    if pages != [] && !Stops(pages[0]) {
      CollectedIsConcatBeforeStop(pages[1..]);
      assert pages[..StopIndex(pages)][1..] == pages[1..][..StopIndex(pages[1..])];
    }
  }

  /** A stopping page discards itself and every page after it, whatever
      those later pages hold. */
  lemma {:induction false} StopDiscardsRest(before: seq<PageReply>, p: PageReply, after: seq<PageReply>)
    requires Stops(p)
    ensures Collected(before + [p] + after) == Collected(before)
  {
    if before != [] {
      assert (before + [p] + after)[0] == before[0];
      assert (before + [p] + after)[1..] == before[1..] + [p] + after;
      StopDiscardsRest(before[1..], p, after);
    }
  }

  /** Without a stopping page the walk collects every array. */
  lemma {:induction false} CollectedWithoutStop(pages: seq<PageReply>)
    requires forall j :: 0 <= j < |pages| ==> !Stops(pages[j])
    ensures Collected(pages) == Concat(pages)
  {
    if pages != [] {
      CollectedWithoutStop(pages[1..]);
    }
  }

  /** A non-200 page ends the walk, and every record gathered from the
      successful pages before it is kept. */
  lemma FailedPageKeepsGathered(before: seq<PageReply>, p: PageReply, after: seq<PageReply>)
    requires forall j :: 0 <= j < |before| ==> !Stops(before[j])
    requires p.status != 200
    ensures Collected(before + [p] + after) == Concat(before)
    ensures StopIndex(before + [p] + after) == |before|
  {
    StopDiscardsRest(before, p, after);
    CollectedWithoutStop(before);
    StopIndexAt(before + [p] + after, |before|);
  }

  /** Only an empty array ends a successful walk: a short page (fewer than
      `per_page` assets) is followed by one more request. */
  lemma ShortPageContinues(p: PageReply, rest: seq<PageReply>)
    requires p.status == 200 && 0 < |Items(p)| < PerPage
    ensures Collected([p] + rest) == Items(p) + Collected(rest)
    ensures StopIndex([p] + rest) == 1 + StopIndex(rest)
  {
    assert ([p] + rest)[1..] == rest;
  }

  /** Pages of 100 and 40 assets followed by an empty page: 140 assets are
      collected over three requests, since the short second page does not
      end the walk. */
  lemma HundredThenForty(p1: PageReply, p2: PageReply, rest: seq<PageReply>)
    requires p1.status == 200 && |Items(p1)| == 100
    requires p2.status == 200 && |Items(p2)| == 40
    requires rest == [] || Stops(rest[0])
    ensures |Collected([p1, p2] + rest)| == 140
    ensures StopIndex([p1, p2] + rest) + 1 == 3
  {
    var pages := [p1, p2] + rest;
    assert pages[1..] == [p2] + rest;
    assert pages[1..][1..] == rest;
    assert Collected(rest) == [];
    assert Collected(pages[1..]) == Items(p2);
    assert Collected(pages) == Items(p1) + Items(p2);
    StopIndexAt(pages, 2);
  }
}
