/**
 * The send panel's batch selection: the holdings sorted ascending by numeric token id
 * (a missing id counts as 0), cut to the configured batch size, and the send gate.
 */
module Selection {
  import opened Wrappers
  import opened Sorting

  /** One owned token as the chain read reports it; `id` may be absent. */
  datatype Nft = Nft(id: Option<nat>, tokenUri: string)

  /** The comparator's key: `BigInt(nft?.id ?? 0)`. */
  function SortKey(n: Nft): int {
    n.id.GetOr(0)
  }

  /** `Number(fixedAmount) || 1`: zero falls back to one, every other amount is kept. */
  function Limit(fixedAmount: int): (r: int)
    ensures r != 0
    ensures fixedAmount != 0 ==> r == fixedAmount
    ensures fixedAmount == 0 ==> r == 1
  {
    if fixedAmount == 0 then 1 else fixedAmount
  }

  /** The end index `Array.prototype.slice(0, end)` uses: a negative end counts back from the length. */
  function SliceEnd(len: nat, end: int): (r: nat)
    ensures r <= len
    ensures end >= 0 ==> r == if end < len then end else len
    ensures end < 0 ==> r == if len + end > 0 then len + end else 0
  {
    if end < 0 then (if len + end > 0 then len + end else 0)
    else if end < len then end else len
  }

  /** `sendingNFTs`: the holdings (none when the read has not answered), sorted, cut to the limit. */
  function SendingNfts(owned: Option<seq<Nft>>, fixedAmount: int): seq<Nft> {
    var sorted := SortBy(owned.GetOr([]), SortKey);
    sorted[..SliceEnd(|sorted|, Limit(fixedAmount))]
  }

  /** In a sorted sequence no element of a prefix has a larger key than an element left after it. */
  lemma PrefixHoldsLeastKeys<T>(s: seq<T>, k: nat, key: T -> int)
    requires SortedBy(s, key) && k <= |s|
    ensures forall x, y :: x in s[..k] && y in multiset(s) - multiset(s[..k]) ==> key(x) <= key(y)
  {
    assert s == s[..k] + s[k..];
    assert multiset(s) - multiset(s[..k]) == multiset(s[k..]);
    forall x, y | x in s[..k] && y in multiset(s) - multiset(s[..k])
      ensures key(x) <= key(y)
    {
      assert y in s[k..];
      var i :| 0 <= i < k && s[..k][i] == x;
      var j :| 0 <= j < |s| - k && s[k..][j] == y;
      assert s[i] == x && s[k + j] == y;
    }
  }

  /**
   * The selection is the first min(limit, n) holdings in ascending id order: sorted, drawn from
   * the holdings, and never holding a larger id than one left behind.
   */
  lemma SelectionIsSmallestIds(owned: seq<Nft>, fixedAmount: int)
    requires fixedAmount >= 0
    ensures var sel := SendingNfts(Some(owned), fixedAmount);
      && |sel| == (if Limit(fixedAmount) < |owned| then Limit(fixedAmount) else |owned|)
      && SortedBy(sel, SortKey)
      && multiset(sel) <= multiset(owned)
      && forall x, y :: x in sel && y in multiset(owned) - multiset(sel) ==> SortKey(x) <= SortKey(y)
  {
    var sorted := SortBy(owned, SortKey);
    var k := SliceEnd(|sorted|, Limit(fixedAmount));
    assert sorted == sorted[..k] + sorted[k..];
    PrefixHoldsLeastKeys(sorted, k, SortKey);
  }

  /** A negative batch size cuts that many tokens off the end of the sorted holdings. */
  lemma NegativeLimitDropsFromEnd(owned: seq<Nft>, fixedAmount: int)
    requires fixedAmount < 0
    ensures |SendingNfts(Some(owned), fixedAmount)| == if |owned| + fixedAmount > 0 then |owned| + fixedAmount else 0
  {
  }

  /** With holdings and a non-negative batch size something is always selected; no holdings, nothing. */
  lemma SelectionNonEmpty(owned: Option<seq<Nft>>, fixedAmount: int)
    ensures owned.None? || owned.value == [] ==> SendingNfts(owned, fixedAmount) == []
    ensures owned.Some? && owned.value != [] && fixedAmount >= 0 ==> |SendingNfts(owned, fixedAmount)| >= 1
    ensures owned.Some? && owned.value != [] && fixedAmount == 0 ==> |SendingNfts(owned, fixedAmount)| == 1
  {
  }

  /** The order the holdings arrive in does not change which ids are selected. */
  lemma SelectionIgnoresInputOrder(a: seq<Nft>, b: seq<Nft>, fixedAmount: int)
    requires multiset(a) == multiset(b)
    ensures Keys(SendingNfts(Some(a), fixedAmount), SortKey) == Keys(SendingNfts(Some(b), fixedAmount), SortKey)
  {
    var sa := SortBy(a, SortKey);
    var sb := SortBy(b, SortKey);
    SortedPermutationsHaveEqualKeys(sa, sb, SortKey);
    assert |a| == |b| by {
      assert |multiset(a)| == |multiset(b)|;
    }
    var k := SliceEnd(|sa|, Limit(fixedAmount));
    assert Keys(sa[..k], SortKey) == Keys(sa, SortKey)[..k];
    assert Keys(sb[..k], SortKey) == Keys(sb, SortKey)[..k];
  }

  /** Tokens with the same id keep the order they were reported in (the sort is stable). */
  lemma SelectionKeepsTieOrder(owned: seq<Nft>, id: int)
    ensures WithKey(SortBy(owned, SortKey), SortKey, id) == WithKey(owned, SortKey, id)
  {
    SortIsStable(owned, SortKey, id);
  }

  /** `canSend`: logged in, approved, something selected, and a recipient address and email. */
  predicate CanSend(isLoggedIn: bool, isApproved: bool, selection: seq<Nft>, recipientAddress: string, recipientEmail: string) {
    isLoggedIn && isApproved && |selection| > 0 && recipientAddress != "" && recipientEmail != ""
  }

  /** A send that is allowed always has holdings behind it, and a batch size that is not negative beyond them. */
  lemma CanSendNeedsHoldings(isLoggedIn: bool, isApproved: bool, owned: Option<seq<Nft>>, fixedAmount: int,
                             recipientAddress: string, recipientEmail: string)
    requires CanSend(isLoggedIn, isApproved, SendingNfts(owned, fixedAmount), recipientAddress, recipientEmail)
    ensures owned.Some? && |owned.value| > 0
    ensures |owned.value| + fixedAmount > 0
  {
  }
}
