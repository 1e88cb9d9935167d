/**
 * The campaign file (`campaigns.json`): the campaign records, how
 * `load_campaigns` orders them, the first-match lookup by id and the counter
 * update a completed launch applies.
 */
module Campaigns {
  import opened Wrappers
  import opened Ordering

  /** One campaign as the creation form stores it. */
  datatype Campaign = Campaign(
    id: string,
    name: string,
    description: string,
    recipients: seq<string>,
    createdAt: string,
    lastSentAt: Option<string>,
    totalEmailsSent: nat)

  /** The key `load_campaigns` sorts by. */
  function CreatedAt(c: Campaign): string {
    c.createdAt
  }

  /** Position of the first campaign with this id, as the lookup `next(...)` and the
      update loop with its `break` both find it. */
  function FindCampaign(cs: seq<Campaign>, id: string): (r: Option<nat>)
    ensures r.None? <==> forall k :: 0 <= k < |cs| ==> cs[k].id != id
    ensures r.Some? ==> r.value < |cs| && cs[r.value].id == id
    ensures r.Some? ==> forall k :: 0 <= k < r.value ==> cs[k].id != id
  {
    if cs == [] then None
    else if cs[0].id == id then Some(0)
    else
      match FindCampaign(cs[1..], id)
      case None => None
      case Some(k) => Some(k + 1)
  }

  /** The campaign after a completed launch: stamped with the launch time, its counter
      increased by the sends that succeeded. */
  function AfterLaunch(c: Campaign, successCount: nat, now: string): Campaign {
    c.(lastSentAt := Some(now), totalEmailsSent := c.totalEmailsSent + successCount)
  }

  /** The update loop of a launch: the first campaign with the id is stamped and its
      counter raised; every other campaign, and a list without the id, is unchanged. */
  method MarkLaunched(cs: seq<Campaign>, id: string, successCount: nat, now: string)
    returns (updated: seq<Campaign>)
    ensures FindCampaign(cs, id).None? ==> updated == cs
    ensures FindCampaign(cs, id).Some? ==>
      var i := FindCampaign(cs, id).value;
      updated == cs[i := AfterLaunch(cs[i], successCount, now)]
  {
    updated := cs;
    var k := 0;
    while k < |updated|
      invariant k <= |cs| && updated == cs
      invariant forall m :: 0 <= m < k ==> cs[m].id != id
    {
      if updated[k].id == id {
        updated := updated[k := AfterLaunch(updated[k], successCount, now)];
        break;
      }
      k := k + 1;
    }
  }

  /** Successful sends recorded over all campaigns. */
  function TotalSent(cs: seq<Campaign>): nat {
    if cs == [] then 0 else cs[0].totalEmailsSent + TotalSent(cs[1..])
  }

  lemma {:induction false} TotalSentUpdate(cs: seq<Campaign>, i: nat, c: Campaign)
    requires i < |cs|
    ensures TotalSent(cs[i := c]) + cs[i].totalEmailsSent == TotalSent(cs) + c.totalEmailsSent
  {
    if i > 0 {
      TotalSentUpdate(cs[1..], i - 1, c);
      assert cs[i := c][1..] == cs[1..][i - 1 := c];
    }
  }

  lemma {:induction false} TotalSentInsert(x: Campaign, s: seq<Campaign>)
    ensures TotalSent(Insert(x, s, CreatedAt)) == x.totalEmailsSent + TotalSent(s)
  {
    if s != [] && !LexLe(CreatedAt(s[0]), CreatedAt(x)) {
      TotalSentInsert(x, s[1..]);
    }
  }

  /** Sorting the store neither loses nor adds recorded sends. */
  lemma {:induction false} TotalSentSorted(cs: seq<Campaign>)
    ensures TotalSent(SortDesc(cs, CreatedAt)) == TotalSent(cs)
  {
    if cs != [] {
      TotalSentSorted(cs[1..]);
      TotalSentInsert(cs[0], SortDesc(cs[1..], CreatedAt));
    }
  }

  /**
   * The bookkeeping of one launch on the loaded campaigns: the list keeps its
   * length, the launched campaign (the first with the id) has its counter raised
   * by exactly `successCount` and `last_sent_at` set, every other campaign is as
   * it was, and the store-wide total rises by exactly `successCount`.
   */
  lemma LaunchBookkeeping(stored: seq<Campaign>, id: string, successCount: nat, now: string)
    requires FindCampaign(SortDesc(stored, CreatedAt), id).Some?
    ensures var loaded := SortDesc(stored, CreatedAt);
      var i := FindCampaign(loaded, id).value;
      var saved := loaded[i := AfterLaunch(loaded[i], successCount, now)];
      && |saved| == |stored|
      && saved[i].id == id
      && saved[i].totalEmailsSent == loaded[i].totalEmailsSent + successCount
      && saved[i].lastSentAt == Some(now)
      && (forall k :: 0 <= k < |saved| && k != i ==> saved[k] == loaded[k])
      && TotalSent(saved) == TotalSent(stored) + successCount
  {
    var loaded := SortDesc(stored, CreatedAt);
    var i := FindCampaign(loaded, id).value;
    SortDescPermutation(stored, CreatedAt);
    assert |loaded| == |multiset(loaded)| == |multiset(stored)| == |stored|;
    TotalSentUpdate(loaded, i, AfterLaunch(loaded[i], successCount, now));
    TotalSentSorted(stored);
  }

  class CampaignsFile {
    var stored: seq<Campaign>

    /** The file does not exist yet: `load_campaigns` reads it as empty. */
    constructor ()
      ensures stored == []
    {
      stored := [];
    }

    /** `load_campaigns`: the stored campaigns, newest `created_at` first; equal
        timestamps keep their stored order. */
    function LoadCampaigns(): (cs: seq<Campaign>)
      reads this
      ensures multiset(cs) == multiset(stored)
      ensures SortedDesc(cs, CreatedAt)
      ensures forall t :: WithKey(cs, CreatedAt, t) == WithKey(stored, CreatedAt, t)
    {
      SortDescPermutation(stored, CreatedAt);
      SortDescSorted(stored, CreatedAt);
      forall t ensures WithKey(SortDesc(stored, CreatedAt), CreatedAt, t) == WithKey(stored, CreatedAt, t) {
        SortDescStable(stored, CreatedAt, t);
      }
      SortDesc(stored, CreatedAt)
    }

    /** `save_campaigns`: the file holds exactly the given list. */
    method SaveCampaigns(cs: seq<Campaign>)
      modifies this
      ensures stored == cs
    {
      stored := cs;
    }
  }
}
