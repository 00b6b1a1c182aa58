/** The playlist arithmetic shared by the three variants: Python's list
    comprehensions, `list.index` and `list.remove`, the refresh-merge of a
    fresh candidate list into the live list, and the wrap-around index steps.

    A refresh computes `new_urls` (candidates not yet listed) and
    `removed_urls` (listed URLs no longer among the candidates), splices the
    shuffled `new_urls` into the list at a cut point, and then removes the
    departed URLs one by one, stepping the displayed position back for each
    one that sat before it. `Merged` and `MergedIndex` state the outcome
    directly; `RemoveDeparted` is the loop, proved against them. */
module Playlist {

  /** No URL occurs twice. */
  predicate NoDup(s: seq<string>) {
    forall i, j :: 0 <= i < j < |s| ==> s[i] != s[j]
  }

  /** `[u for u in s if u in keep]`. */
  function Members(s: seq<string>, keep: seq<string>): (r: seq<string>)
    ensures |r| <= |s|
    ensures forall u {:trigger u in r} :: u in r <==> u in s && u in keep
  {
    if s == [] then []
    else if s[0] in keep then [s[0]] + Members(s[1..], keep)
    else Members(s[1..], keep)
  }

  /** `[u for u in s if u not in drop]`. */
  function NonMembers(s: seq<string>, drop: seq<string>): (r: seq<string>)
    ensures |r| <= |s|
    ensures forall u {:trigger u in r} :: u in r <==> u in s && u !in drop
  {
    if s == [] then []
    else if s[0] in drop then NonMembers(s[1..], drop)
    else [s[0]] + NonMembers(s[1..], drop)
  }

  /** Python's `s.index(x)`: the position of the first occurrence. */
  function IndexOf(s: seq<string>, x: string): (i: nat)
    requires x in s
    ensures i < |s| && s[i] == x && x !in s[..i]
  {
    if s[0] == x then 0
    else
      var j := IndexOf(s[1..], x);
      assert s[..j + 1] == [s[0]] + s[1..][..j];
      1 + j
  }

  /** Python's `s.remove(x)`: drops the first occurrence and nothing else. */
  function RemoveFirst(s: seq<string>, x: string): (r: seq<string>)
    requires x in s
    ensures |r| == |s| - 1
    ensures r == s[..IndexOf(s, x)] + s[IndexOf(s, x) + 1..]
  {
    if s[0] == x then s[1..]
    else
      var j := IndexOf(s[1..], x);
      assert s[..j + 1] == [s[0]] + s[1..][..j];
      assert s[j + 2..] == s[1..][j + 1..];
      [s[0]] + RemoveFirst(s[1..], x)
  }

  /** The end of the Python slice `s[:k]` for a non-negative `k`: slices
      stop at the end of the list. */
  function SliceEnd(k: int, n: nat): (r: nat)
    requires k >= 0
    ensures r <= n
    ensures r == k || (k > n && r == n)
  {
    if k <= n then k else n
  }

  // ---------------------------------------------------------------------
  // The outcome of a refresh, stated directly

  /** The list after a refresh: the old URLs that are still candidates, in
      their old order, with `block` (the shuffled new URLs) standing where
      the old list was cut at `cut`. */
  function Merged(urls: seq<string>, cut: int, keep: seq<string>, block: seq<string>): (m: seq<string>)
    requires 0 <= cut <= |urls|
    // the new block, and as many old URLs as are still candidates
    ensures |m| == |Members(urls, keep)| + |block|
  {
    assert urls == urls[..cut] + urls[cut..];
    MembersAppend(urls[..cut], urls[cut..], keep);
    Members(urls[..cut], keep) + block + Members(urls[cut..], keep)
  }

  /** The displayed position after a refresh: the number of surviving URLs
      that stood before it. */
  function MergedIndex(urls: seq<string>, index: int, keep: seq<string>): (k: nat)
    requires 0 <= index <= |urls|
    ensures k <= index
  {
    |Members(urls[..index], keep)|
  }

  /** `block` occupies `s` from position `k` on. */
  predicate BlockAt(s: seq<string>, k: int, block: seq<string>) {
    0 <= k && k + |block| <= |s| && s[k..k + |block|] == block
  }

  // ---------------------------------------------------------------------
  // Facts about the filters

  lemma {:induction false} MembersAppend(a: seq<string>, b: seq<string>, keep: seq<string>)
    ensures Members(a + b, keep) == Members(a, keep) + Members(b, keep)
  {
    if a == [] {
      assert a + b == b;
    } else {
      assert (a + b)[1..] == a[1..] + b;
      MembersAppend(a[1..], b, keep);
    }
  }

  lemma {:induction false} NonMembersAppend(a: seq<string>, b: seq<string>, drop: seq<string>)
    ensures NonMembers(a + b, drop) == NonMembers(a, drop) + NonMembers(b, drop)
  {
    if a == [] {
      assert a + b == b;
    } else {
      assert (a + b)[1..] == a[1..] + b;
      NonMembersAppend(a[1..], b, drop);
    }
  }

  /** Every URL lands in exactly one of the two filters. */
  lemma {:induction false} PartitionLength(s: seq<string>, keep: seq<string>)
    ensures |Members(s, keep)| + |NonMembers(s, keep)| == |s|
  {
    if s != [] {
      PartitionLength(s[1..], keep);
    }
  }

  /** A list with no departed URL is its own survivor list. */
  lemma {:induction false} NothingDeparted(s: seq<string>, keep: seq<string>)
    requires NonMembers(s, keep) == []
    ensures Members(s, keep) == s
  {
    if s != [] {
      assert s[0] in keep;
      NothingDeparted(s[1..], keep);
    }
  }

  /** A list made only of candidates has no departed URL. */
  lemma {:induction false} AllCandidates(s: seq<string>, keep: seq<string>)
    requires forall u :: u in s ==> u in keep
    ensures NonMembers(s, keep) == [] && Members(s, keep) == s
  {
    if s != [] {
      assert s[0] in s;
      AllCandidates(s[1..], keep);
    }
  }

  /** A non-empty list is duplicate-free exactly when its head does not
      recur and its tail is duplicate-free. */
  lemma NoDupCons(s: seq<string>)
    requires s != []
    ensures NoDup(s) <==> s[0] !in s[1..] && NoDup(s[1..])
  {
    assert forall k :: 0 <= k < |s[1..]| ==> s[1..][k] == s[k + 1];
  }

  /** Filtering a duplicate-free list keeps it duplicate-free. */
  lemma {:induction false} MembersNoDup(s: seq<string>, keep: seq<string>)
    requires NoDup(s)
    ensures NoDup(Members(s, keep))
  {
    if s != [] {
      NoDupCons(s);
      MembersNoDup(s[1..], keep);
      if s[0] in keep {
        NoDupCons(Members(s, keep));
      }
    }
  }

  lemma {:induction false} NonMembersNoDup(s: seq<string>, drop: seq<string>)
    requires NoDup(s)
    ensures NoDup(NonMembers(s, drop))
  {
    if s != [] {
      NoDupCons(s);
      NonMembersNoDup(s[1..], drop);
      if s[0] !in drop {
        NoDupCons(NonMembers(s, drop));
      }
    }
  }

  /** In a duplicate-free list every URL occurs at most once. */
  lemma {:induction false} NoDupCount(s: seq<string>, x: string)
    requires NoDup(s)
    ensures multiset(s)[x] <= 1
  {
    if s != [] {
      assert s == [s[0]] + s[1..];
      NoDupCons(s);
      NoDupCount(s[1..], x);
    }
  }

  /** A list in which no URL occurs twice is duplicate-free. */
  lemma {:induction false} CountNoDup(s: seq<string>)
    requires forall x :: multiset(s)[x] <= 1
    ensures NoDup(s)
  {
    if s != [] {
      assert s == [s[0]] + s[1..];
      assert multiset(s) == multiset{s[0]} + multiset(s[1..]);
      assert multiset(s)[s[0]] <= 1;
      forall x ensures multiset(s[1..])[x] <= 1 {
        assert multiset(s)[x] <= 1;
      }
      CountNoDup(s[1..]);
      NoDupCons(s);
    }
  }

  /** Reordering a duplicate-free list keeps it duplicate-free. */
  lemma NoDupPermutation(a: seq<string>, b: seq<string>)
    requires NoDup(a) && multiset(a) == multiset(b)
    ensures NoDup(b)
  {
    forall x ensures multiset(b)[x] <= 1 {
      NoDupCount(a, x);
    }
    CountNoDup(b);
  }

  lemma NoDupConcat(a: seq<string>, b: seq<string>)
    requires NoDup(a) && NoDup(b)
    requires forall u :: u in a ==> u !in b
    ensures NoDup(a + b)
  {
    forall i, j | 0 <= i < j < |a + b| ensures (a + b)[i] != (a + b)[j] {
      if i < |a| && j >= |a| {
        assert (a + b)[i] in a && (a + b)[j] == b[j - |a|];
      }
    }
  }

  // ---------------------------------------------------------------------
  // The removal loop

  /** One turn of the removal loop, on the list. When the list still holds
      departed URLs, the next URL of `removed_urls` is its first departed
      URL; removing its first occurrence drops exactly that URL and keeps
      every survivor. */
  lemma {:induction false} RemovalStep(t: seq<string>, keep: seq<string>)
    requires NonMembers(t, keep) != []
    ensures NonMembers(t, keep)[0] in t
    ensures var t' := RemoveFirst(t, NonMembers(t, keep)[0]);
            && Members(t', keep) == Members(t, keep)
            && NonMembers(t', keep) == NonMembers(t, keep)[1..]
  {
    var x := NonMembers(t, keep)[0];
    assert x in NonMembers(t, keep);
    var rest := t[1..];
    if t[0] in keep {
      assert NonMembers(t, keep) == NonMembers(rest, keep);
      RemovalStep(rest, keep);
      assert x != t[0];
      assert RemoveFirst(t, x) == [t[0]] + RemoveFirst(rest, x);
    }
  }

  /** The survivors in a prefix of `[h] + r`, for a positive prefix length. */
  lemma ConsPrefix(h: string, r: seq<string>, k: int, keep: seq<string>)
    requires 0 < k <= |r| + 1
    ensures Members(([h] + r)[..k], keep) == Members([h], keep) + Members(r[..k - 1], keep)
  {
    assert ([h] + r)[..k] == [h] + r[..k - 1];
    MembersAppend([h], r[..k - 1], keep);
  }

  /** One turn of the removal loop, on the index: stepping it back exactly
      when the removed occurrence sat before it keeps the survivors before
      it the same. */
  lemma {:induction false} RemovalStepIndex(t: seq<string>, keep: seq<string>, index: int)
    requires 0 <= index <= |t|
    requires NonMembers(t, keep) != []
    ensures NonMembers(t, keep)[0] in t
    ensures var x := NonMembers(t, keep)[0];
            var index' := if index > IndexOf(t, x) then index - 1 else index;
            && 0 <= index' <= |t| - 1
            && Members(RemoveFirst(t, x)[..index'], keep) == Members(t[..index], keep)
  {
    var x := NonMembers(t, keep)[0];
    assert x in NonMembers(t, keep);
    if t[0] !in keep {
      RemovalIndexHead(t, keep, index);
    } else {
      assert NonMembers(t, keep) == NonMembers(t[1..], keep);
      RemovalStepIndex(t[1..], keep, if index > 0 then index - 1 else 0);
      RemovalIndexTail(t, keep, index, x);
    }
  }

  /** `RemovalStepIndex` when the first URL has departed: it is the one
      removed. */
  lemma RemovalIndexHead(t: seq<string>, keep: seq<string>, index: int)
    requires 0 <= index <= |t| && t != [] && t[0] !in keep
    ensures NonMembers(t, keep)[0] == t[0] && IndexOf(t, t[0]) == 0
    ensures RemoveFirst(t, t[0]) == t[1..]
    ensures var index' := if index > 0 then index - 1 else index;
            Members(t[1..][..index'], keep) == Members(t[..index], keep)
  {
    assert t == [t[0]] + t[1..];
    if index > 0 {
      ConsPrefix(t[0], t[1..], index, keep);
    }
  }

  /** `RemovalStepIndex` when the first URL survives, from the same fact
      about the rest of the list. */
  lemma RemovalIndexTail(t: seq<string>, keep: seq<string>, index: int, x: string)
    requires 0 <= index <= |t| && t != [] && t[0] in keep
    requires x in t[1..] && x !in keep
    requires var inner := if index > 0 then index - 1 else 0;
             var inner' := if inner > IndexOf(t[1..], x) then inner - 1 else inner;
             Members(RemoveFirst(t[1..], x)[..inner'], keep) == Members(t[1..][..inner], keep)
    ensures var index' := if index > IndexOf(t, x) then index - 1 else index;
            Members(RemoveFirst(t, x)[..index'], keep) == Members(t[..index], keep)
  {
    var rest := t[1..];
    assert t == [t[0]] + rest;
    assert x != t[0];
    var r' := RemoveFirst(rest, x);
    assert RemoveFirst(t, x) == [t[0]] + r';
    assert IndexOf(t, x) == 1 + IndexOf(rest, x);
    if index > 0 {
      var index' := if index > IndexOf(t, x) then index - 1 else index;
      ConsPrefix(t[0], rest, index, keep);
      ConsPrefix(t[0], r', index', keep);
    }
  }

  /** The removal loop of a refresh: for each URL of `removed`, in order,
      that is still listed, step `currentIndex` back when the URL's first
      occurrence sits before it, then remove that occurrence. `removed` is
      `removed_urls`, the departed URLs of `start`. */
  method RemoveDeparted(start: seq<string>, startIndex: int, removed: seq<string>, ghost keep: seq<string>)
    returns (urls: seq<string>, currentIndex: int)
    requires 0 <= startIndex <= |start|
    requires removed == NonMembers(start, keep)
    ensures urls == Members(start, keep)
    ensures currentIndex == |Members(start[..startIndex], keep)|
    ensures currentIndex == startIndex - |NonMembers(start[..startIndex], keep)|
    ensures 0 <= currentIndex <= |urls|
  {
    urls, currentIndex := start, startIndex;
    for j := 0 to |removed|
      invariant 0 <= currentIndex <= |urls|
      invariant Members(urls, keep) == Members(start, keep)
      invariant NonMembers(urls, keep) == removed[j..]
      invariant Members(urls[..currentIndex], keep) == Members(start[..startIndex], keep)
    {
      var url := removed[j];
      RemovalStep(urls, keep);
      RemovalStepIndex(urls, keep, currentIndex);
      if url in urls {
        if currentIndex > IndexOf(urls, url) {
          currentIndex := currentIndex - 1;
        }
        urls := RemoveFirst(urls, url);
      }
    }
    NothingDeparted(urls, keep);
    assert urls == urls[..currentIndex] + urls[currentIndex..];
    NonMembersAppend(urls[..currentIndex], urls[currentIndex..], keep);
    NothingDeparted(urls[..currentIndex], keep);
    PartitionLength(start[..startIndex], keep);
  }

  /** Splicing URLs that are all candidates into the list at `cut` adds no
      departed URL, and pruning the spliced list yields `Merged`; the part
      before a position at or before the cut is untouched. */
  lemma SplicePrune(urls: seq<string>, cut: int, keep: seq<string>, block: seq<string>, index: int)
    requires 0 <= index <= cut <= |urls|
    requires forall u :: u in block ==> u in keep
    ensures var spliced := urls[..cut] + block + urls[cut..];
            && NonMembers(spliced, keep) == NonMembers(urls, keep)
            && Members(spliced, keep) == Merged(urls, cut, keep, block)
            && index <= |spliced| && spliced[..index] == urls[..index]
  {
    var spliced := urls[..cut] + block + urls[cut..];
    assert urls == urls[..cut] + urls[cut..];
    NonMembersAppend(urls[..cut], block, keep);
    NonMembersAppend(urls[..cut] + block, urls[cut..], keep);
    NonMembersAppend(urls[..cut], urls[cut..], keep);
    AllCandidates(block, keep);
    MembersAppend(urls[..cut], block, keep);
    MembersAppend(urls[..cut] + block, urls[cut..], keep);
    assert spliced[..index] == urls[..index];
  }

  // ---------------------------------------------------------------------
  // Properties of the merge outcome

  /** The displayed position moves back by exactly the number of departed
      URLs before it; it never goes below zero and never past the end of
      the merged list (it may equal the length when the displayed URL was
      last and departed). */
  lemma MergedIndexBounds(urls: seq<string>, index: int, cut: int, keep: seq<string>, block: seq<string>)
    requires 0 <= index <= cut <= |urls|
    ensures MergedIndex(urls, index, keep) == index - |NonMembers(urls[..index], keep)|
    ensures MergedIndex(urls, index, keep) <= index
    ensures MergedIndex(urls, index, keep) <= |Merged(urls, cut, keep, block)|
  {
    PartitionLength(urls[..index], keep);
    assert urls[..cut] == urls[..index] + urls[index..cut];
    MembersAppend(urls[..index], urls[index..cut], keep);
  }

  /** The position ends one past the end of the merged list exactly when
      nothing new was spliced in and the displayed URL and every URL after
      it departed. Both cuts of the three versions (at the displayed
      position, or just after it) are covered. */
  lemma IndexAtEnd(urls: seq<string>, index: int, cut: int, keep: seq<string>, block: seq<string>)
    requires 0 <= index <= cut <= |urls|
    ensures MergedIndex(urls, index, keep) == |Merged(urls, cut, keep, block)|
            <==> block == [] && Members(urls[index..], keep) == []
  {
    assert urls[..cut] == urls[..index] + urls[index..cut];
    MembersAppend(urls[..index], urls[index..cut], keep);
    assert urls[index..] == urls[index..cut] + urls[cut..];
    MembersAppend(urls[index..cut], urls[cut..], keep);
  }

  /** The URL on display stays on display whenever it is still a
      candidate, provided the new URLs are not spliced in before it. */
  lemma DisplayedSlideKept(urls: seq<string>, index: int, cut: int, keep: seq<string>, block: seq<string>)
    requires 0 <= index < |urls| && index <= cut <= |urls|
    requires index < cut || block == []
    requires urls[index] in keep
    ensures MergedIndex(urls, index, keep) < |Merged(urls, cut, keep, block)|
    ensures Merged(urls, cut, keep, block)[MergedIndex(urls, index, keep)] == urls[index]
  {
    var p := Members(urls[..index], keep);
    if index < cut {
      assert urls[..cut] == urls[..index] + ([urls[index]] + urls[index + 1..cut]);
      MembersAppend(urls[..index], [urls[index]] + urls[index + 1..cut], keep);
      MembersAppend([urls[index]], urls[index + 1..cut], keep);
      assert Merged(urls, cut, keep, block)
          == p + ([urls[index]] + Members(urls[index + 1..cut], keep) + block + Members(urls[cut..], keep));
    } else {
      assert urls[cut..] == [urls[index]] + urls[index + 1..];
      MembersAppend([urls[index]], urls[index + 1..], keep);
      assert Merged(urls, cut, keep, block) == p + ([urls[index]] + Members(urls[index + 1..], keep));
    }
  }

  /** The surviving old URLs keep their relative order, and the new URLs
      form one contiguous block after the survivors that stood before the
      cut. */
  lemma MergeLayout(urls: seq<string>, cut: int, keep: seq<string>, block: seq<string>)
    requires 0 <= cut <= |urls|
    ensures var m := Merged(urls, cut, keep, block);
            var p := |Members(urls[..cut], keep)|;
            && p + |block| <= |m|
            && m[p..p + |block|] == block
            && m[..p] + m[p + |block|..] == Members(urls, keep)
  {
    var m := Merged(urls, cut, keep, block);
    var p := |Members(urls[..cut], keep)|;
    assert urls == urls[..cut] + urls[cut..];
    MembersAppend(urls[..cut], urls[cut..], keep);
    assert m[..p] == Members(urls[..cut], keep);
    assert m[p..p + |block|] == block;
    assert m[p + |block|..] == Members(urls[cut..], keep);
  }

  /** Cutting after the displayed URL (the two newer variants): when that
      URL survives, the new URLs come immediately after it. */
  lemma NewUrlsFollowDisplayed(urls: seq<string>, index: int, keep: seq<string>, block: seq<string>)
    requires 0 <= index < |urls| && urls[index] in keep
    ensures var m := Merged(urls, index + 1, keep, block);
            var k := MergedIndex(urls, index, keep);
            && k + 1 + |block| <= |m|
            && m[k] == urls[index]
            && m[k + 1..k + 1 + |block|] == block
  {
    assert urls[..index + 1] == urls[..index] + [urls[index]];
    MembersAppend(urls[..index], [urls[index]], keep);
    MergeLayout(urls, index + 1, keep, block);
    DisplayedSlideKept(urls, index, index + 1, keep, block);
  }

  /** Cutting at the displayed URL (the oldest variant): the new URLs take
      the displayed position, so the first of them is shown next. */
  lemma NewUrlsAtDisplayed(urls: seq<string>, index: int, keep: seq<string>, block: seq<string>)
    requires 0 <= index <= |urls|
    ensures var m := Merged(urls, index, keep, block);
            var k := MergedIndex(urls, index, keep);
            && k + |block| <= |m|
            && m[k..k + |block|] == block
            && (block != [] ==> m[k] == block[0])
  {
    MergeLayout(urls, index, keep, block);
  }

  /** With a duplicate-free list and duplicate-free candidates, the merged
      list is duplicate-free and holds exactly the candidates. */
  lemma MergeContents(urls: seq<string>, cut: int, keep: seq<string>, block: seq<string>)
    requires 0 <= cut <= |urls|
    requires NoDup(urls) && NoDup(keep)
    requires multiset(block) == multiset(NonMembers(keep, urls))
    ensures NoDup(Merged(urls, cut, keep, block))
    ensures forall u :: u in Merged(urls, cut, keep, block) <==> u in keep
  {
    var a, b := urls[..cut], urls[cut..];
    assert urls == a + b;
    assert NoDup(a) by {
      forall i, j | 0 <= i < j < |a| ensures a[i] != a[j] {
        assert a[i] == urls[i] && a[j] == urls[j];
      }
    }
    assert NoDup(b) by {
      forall i, j | 0 <= i < j < |b| ensures b[i] != b[j] {
        assert b[i] == urls[cut + i] && b[j] == urls[cut + j];
      }
    }
    MembersNoDup(a, keep);
    MembersNoDup(b, keep);
    NonMembersNoDup(keep, urls);
    NoDupPermutation(NonMembers(keep, urls), block);
    forall u | u in block ensures u in keep && u !in urls {
      assert u in multiset(block);
      assert u in NonMembers(keep, urls);
    }
    forall u | u in a ensures u !in b {
      var i :| 0 <= i < |a| && a[i] == u;
      forall j | 0 <= j < |b| ensures b[j] != u {
        assert b[j] == urls[cut + j];
      }
    }
    NoDupConcat(Members(a, keep), block);
    NoDupConcat(Members(a, keep) + block, Members(b, keep));
    forall u | u in keep ensures u in Merged(urls, cut, keep, block) {
      if u !in urls {
        assert u in NonMembers(keep, urls);
        assert u in multiset(block);
      }
    }
  }

  /** A refresh can leave the displayed position one past the end: here
      nothing is new and the displayed URL, the last one, departed. */
  lemma IndexMayReachLength()
    ensures Merged(["a", "b"], 2, ["a"], []) == ["a"]
    ensures MergedIndex(["a", "b"], 1, ["a"]) == 1
  {
    assert ["a", "b"][..2] == ["a", "b"];
    assert ["a", "b"][..1] == ["a"];
    assert ["a", "b"][2..] == [];
  }

  // ---------------------------------------------------------------------
  // Randomness

  /** `random.shuffle`: some reordering of `s`; which one is not modelled. */
  method Shuffle(s: seq<string>) returns (r: seq<string>)
    ensures multiset(r) == multiset(s)
  {
    assert multiset(s) == multiset(s);
    r :| multiset(r) == multiset(s);
  }

  /** Removes repeated URLs, keeping the last occurrence of each. */
  function Distinct(s: seq<string>): (r: seq<string>)
    ensures NoDup(r)
    ensures forall u :: u in r <==> u in s
  {
    if s == [] then []
    else if s[0] in s[1..] then Distinct(s[1..])
    else
      var rest := Distinct(s[1..]);
      assert forall i :: 0 <= i < |rest| ==> ([s[0]] + rest)[i + 1] == rest[i];
      [s[0]] + rest
  }

  /** `list(set(found))`: each URL of `found` once, in an order Python
      leaves unspecified. */
  method ListOfSet(found: seq<string>) returns (r: seq<string>)
    ensures NoDup(r)
    ensures forall u :: u in r <==> u in found
  {
    // `Distinct(found)` is a witness that some order exists, which the
    // choice below needs
    var distinct := Distinct(found);
    r :| NoDup(r) && (forall u | u in r :: u in found) && (forall u | u in found :: u in r);
  }

  // ---------------------------------------------------------------------
  // Index arithmetic for navigation

  /** `(i + 1) % n` with Python's `%`, which for a positive `n` gives the
      same non-negative remainder as Dafny's. */
  function WrapNext(i: int, n: int): (r: int)
    requires n > 0
    ensures 0 <= r < n
    ensures 0 <= i < n ==> r == (if i + 1 < n then i + 1 else 0)
  {
    (i + 1) % n
  }

  /** `(i - 1) % n` with Python's `%`. */
  function WrapPrevious(i: int, n: int): (r: int)
    requires n > 0
    ensures 0 <= r < n
    ensures 0 <= i < n ==> r == (if i == 0 then n - 1 else i - 1)
  {
    (i - 1) % n
  }

  /** Stepping forward then back, or back then forward, returns to the
      same position. */
  lemma WrapInverse(i: int, n: int)
    requires 0 <= i < n
    ensures WrapNext(WrapPrevious(i, n), n) == i
    ensures WrapPrevious(WrapNext(i, n), n) == i
  {
  }

  /** The step `_next_url` of the two newer variants takes: forward by one,
      or back to the start with the list reshuffled once the end is
      passed. */
  predicate Advanced(urls: seq<string>, index: int, urls': seq<string>, index': int)
    // a step forward keeps the URLs and moves one on or back to the start
    ensures Advanced(urls, index, urls', index') ==>
              multiset(urls') == multiset(urls) && (index' == index + 1 || index' == 0)
  {
    if index + 1 < |urls| then urls' == urls && index' == index + 1
    else index' == 0 && multiset(urls') == multiset(urls)
  }

  /** Stepping back and then forward with the newer variants' `_next_url`
      returns to the same position; the list is unchanged unless the step
      back wrapped to the end, in which case the step forward reshuffles. */
  lemma PreviousThenAdvance(urls: seq<string>, i: int, urls': seq<string>, i': int)
    requires 0 <= i < |urls|
    requires Advanced(urls, WrapPrevious(i, |urls|), urls', i')
    ensures i' == i
    ensures multiset(urls') == multiset(urls)
    ensures i != 0 ==> urls' == urls
  {
  }

  /** The refresh-merge of the two newer variants, which cut just after the
      displayed URL, in one statement: the position moves back by the
      departed URLs before it and stays within the list or just past its
      end; a surviving displayed URL stays displayed with the new URLs
      right after it; duplicate-free inputs give a duplicate-free list of
      exactly the candidates. */
  lemma MergeAfterDisplayed(urls: seq<string>, index: int, keep: seq<string>, block: seq<string>,
                            m: seq<string>, k: int)
    requires 0 <= index <= |urls|
    requires multiset(block) == multiset(NonMembers(keep, urls))
    requires m == Merged(urls, SliceEnd(index + 1, |urls|), keep, block)
    requires k == MergedIndex(urls, index, keep)
    ensures k == index - |NonMembers(urls[..index], keep)|
    ensures 0 <= k <= |m|
    ensures index < |urls| && urls[index] in keep ==> k < |m| && m[k] == urls[index]
    ensures index < |urls| && urls[index] in keep ==>
              BlockAt(m, k + 1, block)
    ensures NoDup(urls) && NoDup(keep) ==> NoDup(m) && forall u :: u in m <==> u in keep
  {
    var cut := SliceEnd(index + 1, |urls|);
    MergedIndexBounds(urls, index, cut, keep, block);
    if index < |urls| && urls[index] in keep {
      NewUrlsFollowDisplayed(urls, index, keep, block);
    }
    if NoDup(urls) && NoDup(keep) {
      MergeContents(urls, cut, keep, block);
    }
  }

  /** The merge of the two newer variants on values: splice the shuffled
      new candidates in after the displayed URL, then drop the URLs that
      are no longer candidates, stepping the displayed position back for
      each one before it. `block` is the order the shuffle chose. */
  method MergeAfter(urls: seq<string>, index: int, candidates: seq<string>)
    returns (merged: seq<string>, mergedIndex: int, ghost block: seq<string>)
    requires 0 <= index <= |urls|
    ensures multiset(block) == multiset(NonMembers(candidates, urls))
    ensures merged == Merged(urls, SliceEnd(index + 1, |urls|), candidates, block)
    ensures mergedIndex == MergedIndex(urls, index, candidates)
    // the position moves back by the number of departed URLs before it
    ensures mergedIndex == index - |NonMembers(urls[..index], candidates)|
    ensures 0 <= mergedIndex <= |merged|
    // the displayed URL stays displayed when it is still a candidate,
    // and the new URLs then follow it as one block
    ensures index < |urls| && urls[index] in candidates ==>
              mergedIndex < |merged| && merged[mergedIndex] == urls[index]
    ensures index < |urls| && urls[index] in candidates ==> BlockAt(merged, mergedIndex + 1, block)
    // duplicate-free inputs give a duplicate-free list of exactly the candidates
    ensures NoDup(urls) && NoDup(candidates) ==>
              NoDup(merged) && forall u :: u in merged <==> u in candidates
  {
    var newUrls := NonMembers(candidates, urls);
    var removedUrls := NonMembers(urls, candidates);
    newUrls := Shuffle(newUrls);
    ShuffledCandidates(urls, candidates, newUrls);
    var cut := SliceEnd(index + 1, |urls|);
    var spliced := urls[..cut] + newUrls + urls[cut..];
    SplicePrune(urls, cut, candidates, newUrls, index);
    merged, mergedIndex := RemoveDeparted(spliced, index, removedUrls, candidates);
    block := newUrls;
    MergeAfterDisplayed(urls, index, candidates, block, merged, mergedIndex);
  }

  /** Every URL of a reordering of the new candidates is a candidate. */
  lemma ShuffledCandidates(urls: seq<string>, keep: seq<string>, block: seq<string>)
    requires multiset(block) == multiset(NonMembers(keep, urls))
    ensures forall u :: u in block ==> u in keep && u !in urls
  {
    forall u | u in block ensures u in keep && u !in urls {
      assert u in multiset(block);
      assert u in NonMembers(keep, urls);
    }
  }

  /** The oldest variant splices at the displayed position itself: before
      any removal the new URLs occupy the displayed position onwards and
      the URL that was displayed sits just after them. */
  lemma SpliceAtDisplayed(urls: seq<string>, index: int, block: seq<string>)
    requires 0 <= index < |urls|
    ensures var spliced := urls[..index] + block + urls[index..];
            && spliced[index..index + |block|] == block
            && spliced[index + |block|] == urls[index]
  {
    var spliced := urls[..index] + block + urls[index..];
    assert spliced[index + |block|] == urls[index..][0];
  }

  /** The refresh-merge of the oldest variant, which cuts at the displayed
      position, in one statement: the position moves back by the departed
      URLs before it and stays within the list or just past its end; the
      first new URL, if any, is then displayed, and with no new URLs a
      surviving displayed URL stays displayed; duplicate-free inputs give a
      duplicate-free list of exactly the candidates. */
  lemma MergeAtDisplayed(urls: seq<string>, index: int, keep: seq<string>, block: seq<string>,
                         m: seq<string>, k: int)
    requires 0 <= index <= |urls|
    requires multiset(block) == multiset(NonMembers(keep, urls))
    requires m == Merged(urls, index, keep, block)
    requires k == MergedIndex(urls, index, keep)
    ensures k == index - |NonMembers(urls[..index], keep)|
    ensures 0 <= k <= |m|
    ensures BlockAt(m, k, block)
    ensures block != [] ==> m[k] == block[0]
    ensures block == [] && index < |urls| && urls[index] in keep ==> k < |m| && m[k] == urls[index]
    ensures NoDup(urls) && NoDup(keep) ==> NoDup(m) && forall u :: u in m <==> u in keep
  {
    MergedIndexBounds(urls, index, index, keep, block);
    NewUrlsAtDisplayed(urls, index, keep, block);
    if block == [] && index < |urls| && urls[index] in keep {
      DisplayedSlideKept(urls, index, index, keep, block);
    }
    if NoDup(urls) && NoDup(keep) {
      MergeContents(urls, index, keep, block);
    }
  }
}
