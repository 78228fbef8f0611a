/**
  One polling cycle: fetch the mentions newer than the watermark, reverse the page in
  place (the platform returns newest first), handle the mentions oldest first, and
  advance the watermark only once the whole page has been handled.
*/
module Polling {
  import opened Wrappers
  import opened Handler

  // ---------------------------------------------------------------------------
  // Reversal

  /** `s` read back to front. */
  function Reversed<T>(s: seq<T>): (r: seq<T>)
    ensures |r| == |s|
  {
    seq(|s|, k requires 0 <= k < |s| => s[|s| - 1 - k])
  }

  /**
    A page of mentions delivered newest first (by any ranking `age` of tweets, such as
    their numeric ids) is, once reversed, ordered oldest first.
  */
  lemma ReversedIsOldestFirst(page: seq<Tweet>, age: Tweet -> int)
    requires forall i, j :: 0 <= i < j < |page| ==> age(page[i]) > age(page[j])
    ensures forall i, j :: 0 <= i < j < |page| ==> age(Reversed(page)[i]) < age(Reversed(page)[j])
  {
    forall i, j | 0 <= i < j < |page|
      ensures age(Reversed(page)[i]) < age(Reversed(page)[j])
    {
      assert Reversed(page)[i] == page[|page| - 1 - i] && Reversed(page)[j] == page[|page| - 1 - j];
    }
  }

  /** `Array.prototype.reverse`: swaps the ends pairwise, moving inwards. */
  method Reverse<T>(a: array<T>)
    modifies a
    ensures a[..] == Reversed(old(a[..]))
  {
    var lo, hi := 0, a.Length - 1;
    while lo < hi
      invariant 0 <= lo && hi == a.Length - 1 - lo && lo <= a.Length - lo
      invariant forall k :: 0 <= k < lo ==> a[k] == old(a[a.Length - 1 - k]) && a[a.Length - 1 - k] == old(a[k])
      invariant forall k :: lo <= k < a.Length - lo ==> a[k] == old(a[k])
    {
      a[lo], a[hi] := a[hi], a[lo];
      lo, hi := lo + 1, hi - 1;
    }
  }

  // ---------------------------------------------------------------------------
  // A batch of mentions

  /** How each mention of `ts` would be handled, given the collaborators' answers for it. */
  function Outcomes(ts: seq<Tweet>, backend: Tweet -> Backend): (r: seq<Handled>)
    ensures |r| == |ts|
    ensures forall k :: 0 <= k < |ts| ==> r[k] == CommandEffects(ts[k], backend(ts[k]))
  {
    seq(|ts|, k requires 0 <= k < |ts| => CommandEffects(ts[k], backend(ts[k])))
  }

  /** Handlings run one after the other; the first that throws ends the batch. */
  function Sequential(hs: seq<Handled>): Handled
    decreases |hs|
  {
    if hs == [] then Handled([], false)
    else if hs[0].threw then hs[0]
    else
      var rest := Sequential(hs[1..]);
      Handled(hs[0].effects + rest.effects, rest.threw)
  }

  /** The effects of every handling of `hs`, one after the other. */
  function AllEffects(hs: seq<Handled>): seq<Effect>
    decreases |hs|
  {
    if hs == [] then [] else hs[0].effects + AllEffects(hs[1..])
  }

  /** The position of the first handling that throws. */
  function FirstThrow(hs: seq<Handled>): (r: Option<nat>)
    ensures r.Some? ==> r.value < |hs| && hs[r.value].threw
    ensures r.Some? ==> forall k :: 0 <= k < r.value ==> !hs[k].threw
    ensures r.None? ==> forall k :: 0 <= k < |hs| ==> !hs[k].threw
    decreases |hs|
  {
    if hs == [] then None
    else if hs[0].threw then Some(0)
    else match FirstThrow(hs[1..])
      case None => None
      case Some(k) => Some(k + 1)
  }

  /**
    A batch throws exactly when one of its handlings throws; its effects are those of
    every handling up to and including the first that throws, and of all of them when
    none does.
  */
  lemma {:induction false} SequentialStopsAtFirstThrow(hs: seq<Handled>)
    ensures Sequential(hs).threw <==> FirstThrow(hs).Some?
    ensures FirstThrow(hs).None? ==> Sequential(hs).effects == AllEffects(hs)
    ensures FirstThrow(hs).Some? ==> Sequential(hs).effects == AllEffects(hs[..FirstThrow(hs).value + 1])
    decreases |hs|
  {
    if hs != [] {
      SequentialStopsAtFirstThrow(hs[1..]);
      if hs[0].threw {
        assert hs[..1][1..] == [];
        assert AllEffects(hs[..1]) == hs[0].effects + AllEffects([]);
      } else if FirstThrow(hs[1..]).Some? {
        var k := FirstThrow(hs[1..]).value;
        assert hs[..k + 2][1..] == hs[1..][..k + 1];
      }
    }
  }

  /** One more handling after a batch that did not throw appends its effects. */
  lemma {:induction false} SequentialSnoc(hs: seq<Handled>, h: Handled)
    requires !Sequential(hs).threw
    ensures Sequential(hs + [h]) == Handled(Sequential(hs).effects + h.effects, h.threw)
    decreases |hs|
  {
    if hs == [] {
      assert [h][1..] == [];
    } else {
      assert (hs + [h])[0] == hs[0];
      assert (hs + [h])[1..] == hs[1..] + [h];
      SequentialSnoc(hs[1..], h);
    }
  }

  /** Once a batch has thrown, the handlings after it change nothing. */
  lemma {:induction false} SequentialAfterThrow(hs: seq<Handled>, more: seq<Handled>)
    requires Sequential(hs).threw
    ensures Sequential(hs + more) == Sequential(hs)
    decreases |hs|
  {
    assert hs != [];
    assert (hs + more)[0] == hs[0];
    if !hs[0].threw {
      assert (hs + more)[1..] == hs[1..] + more;
      SequentialAfterThrow(hs[1..], more);
    }
  }

  /** Handling the next mention of a batch that has not thrown so far. */
  lemma SequentialStep(hs: seq<Handled>, i: nat)
    requires i < |hs| && !Sequential(hs[..i]).threw
    ensures Sequential(hs[..i + 1]) == Handled(Sequential(hs[..i]).effects + hs[i].effects, hs[i].threw)
    ensures hs[i].threw ==> Sequential(hs) == Sequential(hs[..i + 1])
  {
    SequentialSnoc(hs[..i], hs[i]);
    assert hs[..i + 1] == hs[..i] + [hs[i]];
    if hs[i].threw {
      SequentialAfterThrow(hs[..i + 1], hs[i + 1..]);
      assert hs[..i + 1] + hs[i + 1..] == hs;
    }
  }

  // ---------------------------------------------------------------------------
  // The cycle

  /** The part of the timeline response the cycle reads: the page and `meta.newest_id`. */
  datatype Page = Page(tweets: seq<Tweet>, newestId: Option<string>)

  /** `lastMentionId || undefined`: an unset or empty watermark asks for no lower bound. */
  function SinceId(watermark: Option<string>): (r: Option<string>)
    ensures r.Some? <==> watermark.Some? && watermark.value != ""
    ensures r.Some? ==> r == watermark
  {
    if watermark.Some? && watermark.value != "" then watermark else None
  }

  /** How the mentions of a page are handled, oldest first. */
  function PageOutcomes(page: Page, backend: Tweet -> Backend): (r: seq<Handled>)
    ensures |r| == |page.tweets|
  {
    Outcomes(Reversed(page.tweets), backend)
  }

  /** The effects of one cycle, given what the timeline call returned. */
  function CycleEffects(fetch: Call<Page>, backend: Tweet -> Backend): seq<Effect> {
    match fetch
    case Threw => []
    case Returned(page) => Sequential(PageOutcomes(page, backend)).effects
  }

  /**
    The watermark after one cycle: `meta.newest_id` once a non-empty page has been
    handled without a throw, the old watermark otherwise.
  */
  function NextWatermark(watermark: Option<string>, fetch: Call<Page>, backend: Tweet -> Backend): Option<string> {
    match fetch
    case Threw => watermark
    case Returned(page) =>
      if |page.tweets| == 0 || Sequential(PageOutcomes(page, backend)).threw then watermark
      else page.newestId
  }

  /** The bot's polling state: the id of the newest mention already handled. */
  class Poller {
    var lastMentionId: Option<string>

    /** `let lastMentionId = null` */
    constructor()
      ensures lastMentionId == None
    {
      lastMentionId := None;
    }

    /**
      One run of `pollMentions`: returns the `since_id` it asked for and the effects it
      made, and moves the watermark as `NextWatermark` says.
    */
    method PollOnce(fetch: Call<Page>, backend: Tweet -> Backend) returns (sinceId: Option<string>, effects: seq<Effect>)
      modifies this
      ensures sinceId == SinceId(old(lastMentionId))
      ensures effects == CycleEffects(fetch, backend)
      ensures lastMentionId == NextWatermark(old(lastMentionId), fetch, backend)
    {
      sinceId := SinceId(lastMentionId);
      effects := [];
      if fetch.Threw? {
        return;
      }
      var page := fetch.value;
      if |page.tweets| == 0 {
        return;
      }
      var tweets := new Tweet[|page.tweets|](k requires 0 <= k < |page.tweets| => page.tweets[k]);
      assert tweets[..] == page.tweets;
      Reverse(tweets);
      var h := HandleInOrder(tweets, backend);
      effects := h.effects;
      if !h.threw {
        lastMentionId := page.newestId;
      }
    }
  }

  /** The `for … of` loop: handles the mentions in array order until one throws. */
  method HandleInOrder(tweets: array<Tweet>, backend: Tweet -> Backend) returns (result: Handled)
    ensures result == Sequential(Outcomes(tweets[..], backend))
  {
    ghost var hs := Outcomes(tweets[..], backend);
    var effects := [];
    var i := 0;
    while i < tweets.Length
      invariant 0 <= i <= tweets.Length
      invariant Sequential(hs[..i]) == Handled(effects, false)
    {
      var t := tweets[i];
      assert t == tweets[..][i];
      var h := HandleCommand(t, backend(t));
      assert h == hs[i];
      SequentialStep(hs, i);
      effects := effects + h.effects;
      if h.threw {
        return Handled(effects, true);
      }
      i := i + 1;
    }
    assert hs[..i] == hs;
    return Handled(effects, false);
  }

  // ---------------------------------------------------------------------------
  // Properties of the cycle

  /** The watermark moves only past a non-empty page whose every mention was handled without a throw. */
  lemma WatermarkMovesOnlyAfterWholePage(watermark: Option<string>, fetch: Call<Page>, backend: Tweet -> Backend)
    ensures NextWatermark(watermark, fetch, backend) != watermark ==>
              fetch.Returned? && |fetch.value.tweets| > 0 &&
              (forall k :: 0 <= k < |fetch.value.tweets| ==> !PageOutcomes(fetch.value, backend)[k].threw) &&
              NextWatermark(watermark, fetch, backend) == fetch.value.newestId
  {
    if NextWatermark(watermark, fetch, backend) != watermark {
      SequentialStopsAtFirstThrow(PageOutcomes(fetch.value, backend));
    }
  }

  /** A page handled without a throw moves the watermark to `meta.newest_id`, even when that is absent. */
  lemma CleanPageMovesWatermark(watermark: Option<string>, page: Page, backend: Tweet -> Backend)
    requires |page.tweets| > 0
    requires forall k :: 0 <= k < |page.tweets| ==> !PageOutcomes(page, backend)[k].threw
    ensures NextWatermark(watermark, Returned(page), backend) == page.newestId
    ensures CycleEffects(Returned(page), backend) == AllEffects(PageOutcomes(page, backend))
  {
    SequentialStopsAtFirstThrow(PageOutcomes(page, backend));
  }

  /**
    When a mention throws, the mentions after it (in oldest-first order) are not handled,
    the watermark stays, and the effects of the mentions before it, transfers included,
    have already happened, so the next cycle fetches and handles them again.
  */
  lemma ThrowAbortsCycle(watermark: Option<string>, page: Page, backend: Tweet -> Backend, k: nat)
    requires k < |page.tweets|
    requires PageOutcomes(page, backend)[k].threw
    requires forall j :: 0 <= j < k ==> !PageOutcomes(page, backend)[j].threw
    ensures NextWatermark(watermark, Returned(page), backend) == watermark
    ensures CycleEffects(Returned(page), backend) == AllEffects(PageOutcomes(page, backend)[..k + 1])
  {
    var hs := PageOutcomes(page, backend);
    SequentialStopsAtFirstThrow(hs);
    var f := FirstThrow(hs).value;
    assert !(f < k) && !(k < f);
  }

  /** The outcomes of a page are those of its mentions taken oldest (last fetched) first. */
  lemma PageOutcomesOldestFirst(page: Page, backend: Tweet -> Backend, k: nat)
    requires k < |page.tweets|
    ensures var t := page.tweets[|page.tweets| - 1 - k];
            PageOutcomes(page, backend)[k] == CommandEffects(t, backend(t))
  {
    assert Reversed(page.tweets)[k] == page.tweets[|page.tweets| - 1 - k];
  }

  /** Neither a failed fetch nor an empty page moves the watermark or has any effect. */
  lemma NothingFetchedNothingChanges(watermark: Option<string>, fetch: Call<Page>, backend: Tweet -> Backend)
    requires fetch.Threw? || |fetch.value.tweets| == 0
    ensures NextWatermark(watermark, fetch, backend) == watermark
    ensures CycleEffects(fetch, backend) == []
  {
  }
}
