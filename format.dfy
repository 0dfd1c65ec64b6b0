/** The markdown lines of the report: one bullet per pull request, one heading per label. */
module Format {
  import opened Model

  /** A line of the report that lists a pull request. */
  predicate IsBullet(line: string)
  {
    |line| > 0 && line[0] == '-'
  }

  /** A line of the report that opens a section. */
  predicate IsHeading(line: string)
  {
    |line| > 0 && line[0] == '#'
  }

  /** `format_item`: `- [owner/repo] [#number](url) title ([@login])`. */
  function FormatItem(userLogin: string, item: Item): string
  {
    "- [" + item.repositoryName + "] [#" + item.issueNumber + "](" + item.issueUrl + ") "
      + item.issueTitle + " ([@" + userLogin + "])"
  }

  /** An item's line is a bullet, never a heading. */
  lemma FormatItemBullet(userLogin: string, item: Item)
    ensures IsBullet(FormatItem(userLogin, item)) && !IsHeading(FormatItem(userLogin, item))
  {
    assert FormatItem(userLogin, item)[0] == '-';
  }

  /** `format_label`: `## name`. */
  function FormatLabel(group: RepoConfig): (line: string)
    ensures IsHeading(line) && !IsBullet(line)
  {
    "## " + group.name
  }

  /** `format_items`: the bullet of every item, by its own author, in input order. */
  function FormatItems(items: seq<Item>): (lines: seq<string>)
    ensures |lines| == |items|
  {
    if |items| == 0 then []
    else [FormatItem(items[0].userLogin, items[0])] + FormatItems(items[1..])
  }

  /** Line `i` is the bullet of item `i`, by that item's own author. */
  lemma {:induction false} FormatItemsAt(items: seq<Item>)
    ensures forall i :: 0 <= i < |items| ==> FormatItems(items)[i] == FormatItem(items[i].userLogin, items[i])
  {
    if |items| > 0 {
      FormatItemsAt(items[1..]);
    }
  }

  lemma {:induction false} FormatItemsAppend(a: seq<Item>, b: seq<Item>)
    ensures FormatItems(a + b) == FormatItems(a) + FormatItems(b)
  {
    if |a| == 0 {
      assert a + b == b;
    } else {
      var head := [FormatItem(a[0].userLogin, a[0])];
      assert (a + b)[0] == a[0] && (a + b)[1..] == a[1..] + b;
      calc {
        FormatItems(a + b);
        head + FormatItems(a[1..] + b);
        { FormatItemsAppend(a[1..], b); }
        head + (FormatItems(a[1..]) + FormatItems(b));
        (head + FormatItems(a[1..])) + FormatItems(b);
        FormatItems(a) + FormatItems(b);
      }
    }
  }
}
