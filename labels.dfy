/** Sorting items under the configured labels (src/main.rs, `match_items_with_labels`).
    Each item goes to the first label, in sequence order, whose `repos` list its
    repository; an item no label claims goes to the unknown list. */
module Labels {
  import opened Base
  import opened Model

  /** `repos.find(|label| label.repos.contains(name))`, as an index. */
  function FirstMatch(labels: seq<RepoConfig>, name: string): (r: Option<nat>)
    ensures r.Some? ==> r.value < |labels|
  {
    if |labels| == 0 then None
    else if name in labels[0].repos then Some(0)
    else
      match FirstMatch(labels[1..], name)
      case None => None
      case Some(k) => Some(k + 1)
  }

  /** The first match is a label that claims the name, preceded by none that does; there
      is none exactly when no label claims it. */
  lemma {:induction false} FirstMatchMeaning(labels: seq<RepoConfig>, name: string)
    ensures var r := FirstMatch(labels, name);
      && (r.Some? ==>
            && r.value < |labels| && name in labels[r.value].repos
            && forall j :: 0 <= j < r.value ==> name !in labels[j].repos)
      && (r.None? <==> forall j :: 0 <= j < |labels| ==> name !in labels[j].repos)
  {
    if |labels| > 0 && name !in labels[0].repos {
      FirstMatchMeaning(labels[1..], name);
      assert forall j :: 0 < j < |labels| ==> labels[j] == labels[1..][j - 1];
    }
  }

  /** The first match only looks at the labels' `repos`. */
  lemma FirstMatchRepos(a: seq<RepoConfig>, b: seq<RepoConfig>, name: string)
    requires |a| == |b|
    requires forall j :: 0 <= j < |a| ==> a[j].repos == b[j].repos
    ensures FirstMatch(a, name) == FirstMatch(b, name)
  {
    FirstMatchMeaning(a, name);
    FirstMatchMeaning(b, name);
  }

  /** The items of `items`, in order, whose first match is `target` (`None`: no label). */
  function Bucket(labels: seq<RepoConfig>, items: seq<Item>, target: Option<nat>): seq<Item>
  {
    if |items| == 0 then []
    else
      var last := items[|items| - 1];
      Bucket(labels, items[..|items| - 1], target)
        + (if FirstMatch(labels, last.repositoryName) == target then [last] else [])
  }

  /** The items no label claims. */
  function Unknown(labels: seq<RepoConfig>, items: seq<Item>): seq<Item>
  {
    Bucket(labels, items, None)
  }

  /** The labels after matching: each keeps its name and repos, and its items gain its
      bucket at the end. */
  function Matched(labels: seq<RepoConfig>, items: seq<Item>): (matched: seq<RepoConfig>)
    ensures |matched| == |labels|
    ensures forall j :: 0 <= j < |labels| ==>
      && matched[j].name == labels[j].name
      && matched[j].repos == labels[j].repos
      && matched[j].items == labels[j].items + Bucket(labels, items, Some(j))
  {
    seq(|labels|, j requires 0 <= j < |labels| =>
      labels[j].(items := labels[j].items + Bucket(labels, items, Some(j))))
  }

  /** An item is in a bucket exactly when it is one of the items and that bucket is
      its first match. */
  lemma {:induction false} BucketMembership(labels: seq<RepoConfig>, items: seq<Item>, target: Option<nat>, x: Item)
    ensures x in Bucket(labels, items, target) <==>
      x in items && FirstMatch(labels, x.repositoryName) == target
  {
    if |items| > 0 {
      var init, last := items[..|items| - 1], items[|items| - 1];
      BucketMembership(labels, init, target, x);
      assert items == init + [last];
    }
  }

  /** Buckets keep input order: the bucket of a concatenation is the concatenation of
      the buckets. */
  lemma {:induction false} BucketAppend(labels: seq<RepoConfig>, a: seq<Item>, b: seq<Item>, target: Option<nat>)
    ensures Bucket(labels, a + b, target) == Bucket(labels, a, target) + Bucket(labels, b, target)
  {
    if |b| == 0 {
      assert a + b == a;
    } else {
      assert (a + b)[..|a + b| - 1] == a + b[..|b| - 1];
      BucketAppend(labels, a, b[..|b| - 1], target);
    }
  }

  /** One item more: it joins the end of its first match's bucket and no other. */
  lemma BucketSnoc(labels: seq<RepoConfig>, items: seq<Item>, x: Item, target: Option<nat>)
    ensures Bucket(labels, items + [x], target) ==
      Bucket(labels, items, target) + (if FirstMatch(labels, x.repositoryName) == target then [x] else [])
  {
    assert (items + [x])[..|items + [x]| - 1] == items;
  }

  /** How often `x` occurs in `s`. */
  function Count(s: seq<Item>, x: Item): nat
  {
    if |s| == 0 then 0 else Count(s[..|s| - 1], x) + (if s[|s| - 1] == x then 1 else 0)
  }

  /** The count is the multiplicity `multiset(s)[x]`. */
  lemma {:induction false} CountIsMultiplicity(s: seq<Item>, x: Item)
    ensures Count(s, x) == multiset(s)[x]
  {
    if |s| > 0 {
      CountIsMultiplicity(s[..|s| - 1], x);
      assert s == s[..|s| - 1] + [s[|s| - 1]];
    }
  }

  /** How often `x` was added to the labels `0 .. n - 1`. */
  function AddedCount(labels: seq<RepoConfig>, items: seq<Item>, x: Item, n: nat): nat
  {
    if n == 0 then 0 else AddedCount(labels, items, x, n - 1) + Count(Bucket(labels, items, Some(n - 1)), x)
  }

  lemma CountSnoc(s: seq<Item>, y: Item, x: Item)
    ensures Count(s + [y], x) == Count(s, x) + (if y == x then 1 else 0)
  {
    assert (s + [y])[..|s + [y]| - 1] == s;
  }

  /** An item's contribution to the count of `x` in labels `0 .. n - 1`. */
  function Share(labels: seq<RepoConfig>, y: Item, x: Item, n: nat): nat
  {
    var m := FirstMatch(labels, y.repositoryName);
    if y == x && m.Some? && m.value < n then 1 else 0
  }

  lemma {:induction false} AddedStep(labels: seq<RepoConfig>, items: seq<Item>, y: Item, x: Item, n: nat)
    ensures AddedCount(labels, items + [y], x, n) == AddedCount(labels, items, x, n) + Share(labels, y, x, n)
  {
    if n > 0 {
      AddedStep(labels, items, y, x, n - 1);
      var b := Bucket(labels, items, Some(n - 1));
      var hit := FirstMatch(labels, y.repositoryName) == Some(n - 1);
      assert Count(Bucket(labels, items + [y], Some(n - 1)), x) == Count(b, x) + (if hit && y == x then 1 else 0) by {
        BucketSnoc(labels, items, y, Some(n - 1));
        if hit {
          CountSnoc(b, y, x);
        } else {
          assert b + [] == b;
        }
      }
      var grown := items + [y];
      assert AddedCount(labels, grown, x, n) == AddedCount(labels, grown, x, n - 1) + Count(Bucket(labels, grown, Some(n - 1)), x);
      assert AddedCount(labels, items, x, n) == AddedCount(labels, items, x, n - 1) + Count(b, x);
      assert Share(labels, y, x, n) == Share(labels, y, x, n - 1) + (if hit && y == x then 1 else 0);
    } else {
      assert Share(labels, y, x, 0) == 0;
      assert AddedCount(labels, items + [y], x, 0) == 0 && AddedCount(labels, items, x, 0) == 0;
    }
  }

  lemma {:induction false} AddedNothing(labels: seq<RepoConfig>, x: Item, n: nat)
    ensures AddedCount(labels, [], x, n) == 0
  {
    if n > 0 {
      AddedNothing(labels, x, n - 1);
    }
  }

  /** Conservation: every item lands in exactly one place. Each item occurs as often in
      the input as in all the labels' buckets and the unknown list together (with
      CountIsMultiplicity: the multiset of the input is the multiset sum of the buckets
      and the unknown list). */
  lemma {:induction false} Conservation(labels: seq<RepoConfig>, items: seq<Item>, x: Item)
    ensures Count(items, x) == AddedCount(labels, items, x, |labels|) + Count(Unknown(labels, items), x)
  {
    if |items| > 0 {
      var init, last := items[..|items| - 1], items[|items| - 1];
      assert items == init + [last];
      Conservation(labels, init, x);
      AddedStep(labels, init, last, x, |labels|);
      CountSnoc(init, last, x);
      assert Count(Unknown(labels, items), x) == Count(Unknown(labels, init), x)
        + (if last == x && FirstMatch(labels, last.repositoryName).None? then 1 else 0) by {
        BucketSnoc(labels, init, last, None);
        if FirstMatch(labels, last.repositoryName).None? {
          CountSnoc(Unknown(labels, init), last, x);
        } else {
          assert Unknown(labels, init) + [] == Unknown(labels, init);
        }
      }
    } else {
      AddedNothing(labels, x, |labels|);
    }
  }

  /** Matching leaves every label's `repos`, hence every first match, as it was. */
  lemma MatchedFirstMatch(labels: seq<RepoConfig>, items: seq<Item>, name: string)
    ensures FirstMatch(Matched(labels, items), name) == FirstMatch(labels, name)
  {
    FirstMatchRepos(Matched(labels, items), labels, name);
  }

  /** One item more: it is pushed onto its first match, or the labels stay as they are. */
  lemma MatchedSnoc(labels: seq<RepoConfig>, items: seq<Item>, x: Item)
    ensures var m := FirstMatch(labels, x.repositoryName);
      var before := Matched(labels, items);
      Matched(labels, items + [x]) ==
        if m.Some? then before[m.value := before[m.value].(items := before[m.value].items + [x])] else before
  {
    var m := FirstMatch(labels, x.repositoryName);
    var before, after := Matched(labels, items), Matched(labels, items + [x]);
    var updated := if m.Some? then before[m.value := before[m.value].(items := before[m.value].items + [x])] else before;
    forall j | 0 <= j < |labels| ensures after[j] == updated[j] {
      var extra: seq<Item> := if m == Some(j) then [x] else [];
      assert Bucket(labels, items + [x], Some(j)) == Bucket(labels, items, Some(j)) + extra by {
        BucketSnoc(labels, items, x, Some(j));
      }
      assert labels[j].items + (Bucket(labels, items, Some(j)) + extra)
        == labels[j].items + Bucket(labels, items, Some(j)) + extra;
    }
    assert |after| == |updated|;
  }

  /** `repos.into_iter().find(...)`: the index of the first label claiming `name`. */
  method FindLabel(labels: array<RepoConfig>, name: string) returns (r: Option<nat>)
    ensures r == FirstMatch(labels[..], name)
  {
    FirstMatchMeaning(labels[..], name);
    var j := 0;
    while j < labels.Length && name !in labels[j].repos
      invariant 0 <= j <= labels.Length
      invariant forall k :: 0 <= k < j ==> name !in labels[k].repos
    {
      j := j + 1;
    }
    if j < labels.Length {
      r := Some(j);
    } else {
      r := None;
    }
  }

  /** `match_items_with_labels`: each item is pushed onto the items of its first matching
      label, in place, or onto the returned unknown list. */
  method MatchItemsWithLabels(labels: array<RepoConfig>, items: seq<Item>) returns (unknown: seq<Item>)
    modifies labels
    ensures labels[..] == Matched(old(labels[..]), items)
    ensures unknown == Unknown(old(labels[..]), items)
  {
    ghost var original := labels[..];
    unknown := [];
    assert items[..0] == [];
    forall j | 0 <= j < labels.Length ensures labels[..][j] == Matched(original, items[..0])[j] {
      assert original[j].items + [] == original[j].items;
    }
    for i := 0 to |items|
      invariant labels[..] == Matched(original, items[..i])
      invariant unknown == Bucket(original, items[..i], None)
    {
      var item := items[i];
      assert items[..i + 1] == items[..i] + [item];
      BucketSnoc(original, items[..i], item, None);
      MatchedSnoc(original, items[..i], item);
      MatchedFirstMatch(original, items[..i], item.repositoryName);
      var target := FindLabel(labels, item.repositoryName);
      match target
      case Some(j) => {
        labels[j] := labels[j].(items := labels[j].items + [item]);
      }
      case None => {
        unknown := unknown + [item];
      }
    }
    assert items[..|items|] == items;
  }
}
