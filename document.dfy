/** The report file (src/main.rs, `main`). With a configuration: the fetched items minus
    the excluded repositories, sorted by repository, grouped under the labels sorted by
    name, then the unknown items, then the link definitions. Without one: the sorted
    items as one flat list, then the definitions. */
module Document {
  import opened Base
  import opened Text
  import opened Order
  import opened Model
  import opened Format
  import opened Fetch
  import opened Links
  import opened Labels

  /** `BREAK_LINE`: two line feeds. */
  const BreakLine: string := "\n\n"

  const UnknownHeading: string := "## Unknown"

  /** `.filter(|item| !config.exclude.contains(&item.repository_name))`. */
  function Retained(items: seq<Item>, exclude: seq<string>): (kept: seq<Item>)
    ensures forall x :: x in kept <==> x in items && x.repositoryName !in exclude
  {
    if |items| == 0 then []
    else
      var init, last := items[..|items| - 1], items[|items| - 1];
      assert items == init + [last];
      Retained(init, exclude) + (if last.repositoryName in exclude then [] else [last])
  }

  /** `.filter(|i| i.items.len() > 0)`: the labels that have items. */
  function NonEmptyLabels(groups: seq<RepoConfig>): (kept: seq<RepoConfig>)
    ensures forall g :: g in kept <==> g in groups && |g.items| > 0
  {
    if |groups| == 0 then []
    else
      var init, last := groups[..|groups| - 1], groups[|groups| - 1];
      assert groups == init + [last];
      NonEmptyLabels(init) + (if |last.items| > 0 then [last] else [])
  }

  /** A rendered label: its heading, a blank line, its bullets. */
  function LabelBlock(group: RepoConfig): seq<string>
  {
    [FormatLabel(group), ""] + FormatItems(group.items)
  }

  /** The rendered labels, each but the first preceded by a blank line. */
  function Sections(groups: seq<RepoConfig>): seq<string>
  {
    if |groups| == 0 then []
    else
      var init := groups[..|groups| - 1];
      Sections(init) + (if |init| > 0 then [""] else []) + LabelBlock(groups[|groups| - 1])
  }

  /** The `## Unknown` section, present only when some item has no label. */
  function UnknownSection(unknown: seq<Item>): seq<string>
  {
    if |unknown| > 0 then ["", UnknownHeading, ""] + FormatItems(unknown) else []
  }

  /** The `content` lines of the grouped report. */
  function Content(groups: seq<RepoConfig>, unknown: seq<Item>): seq<string>
  {
    Sections(NonEmptyLabels(groups)) + UnknownSection(unknown)
  }

  /** The lines that open with `c`, in order. */
  function Marked(lines: seq<string>, c: char): seq<string>
  {
    if |lines| == 0 then []
    else
      var last := lines[|lines| - 1];
      Marked(lines[..|lines| - 1], c) + (if |last| > 0 && last[0] == c then [last] else [])
  }

  function Headings(lines: seq<string>): seq<string>
  {
    Marked(lines, '#')
  }

  function Bullets(lines: seq<string>): seq<string>
  {
    Marked(lines, '-')
  }

  /** The heading of every label, in order. */
  function Titles(groups: seq<RepoConfig>): (titles: seq<string>)
    ensures |titles| == |groups|
    ensures forall i :: 0 <= i < |groups| ==> titles[i] == FormatLabel(groups[i])
  {
    if |groups| == 0 then [] else Titles(groups[..|groups| - 1]) + [FormatLabel(groups[|groups| - 1])]
  }

  /** The items of every label, label after label. */
  function Gathered(groups: seq<RepoConfig>): seq<Item>
  {
    if |groups| == 0 then [] else Gathered(groups[..|groups| - 1]) + groups[|groups| - 1].items
  }

  lemma {:induction false} MarkedAppend(a: seq<string>, b: seq<string>, c: char)
    ensures Marked(a + b, c) == Marked(a, c) + Marked(b, c)
  {
    if |b| == 0 {
      assert a + b == a;
    } else {
      assert (a + b)[..|a + b| - 1] == a + b[..|b| - 1];
      MarkedAppend(a, b[..|b| - 1], c);
    }
  }

  lemma {:induction false} MarkedNone(lines: seq<string>, c: char)
    requires forall i :: 0 <= i < |lines| ==> |lines[i]| == 0 || lines[i][0] != c
    ensures Marked(lines, c) == []
  {
    if |lines| > 0 {
      MarkedNone(lines[..|lines| - 1], c);
    }
  }

  lemma {:induction false} MarkedAll(lines: seq<string>, c: char)
    requires forall i :: 0 <= i < |lines| ==> |lines[i]| > 0 && lines[i][0] == c
    ensures Marked(lines, c) == lines
  {
    if |lines| > 0 {
      MarkedAll(lines[..|lines| - 1], c);
    }
  }

  lemma SectionsSnoc(groups: seq<RepoConfig>, group: RepoConfig)
    ensures Sections(groups + [group]) == Sections(groups) + (if |groups| > 0 then [""] else []) + LabelBlock(group)
  {
    assert (groups + [group])[..|groups|] == groups;
  }

  lemma NonEmptyLabelsSnoc(groups: seq<RepoConfig>, group: RepoConfig)
    ensures NonEmptyLabels(groups + [group]) == NonEmptyLabels(groups) + (if |group.items| > 0 then [group] else [])
  {
    assert (groups + [group])[..|groups|] == groups;
  }

  /** Bullets are bullets and not headings. */
  lemma {:induction false} ItemsMarks(items: seq<Item>)
    ensures Marked(FormatItems(items), '-') == FormatItems(items)
    ensures Marked(FormatItems(items), '#') == []
  {
    if |items| > 0 {
      var init, last := items[..|items| - 1], items[|items| - 1];
      var line := FormatItem(last.userLogin, last);
      assert FormatItems(items) == FormatItems(init) + [line] by {
        assert items == init + [last];
        FormatItemsAppend(init, [last]);
      }
      assert (FormatItems(init) + [line])[..|FormatItems(init)|] == FormatItems(init);
      FormatItemBullet(last.userLogin, last);
      ItemsMarks(init);
    }
  }

  /** A label block has one heading, the label's. */
  lemma LabelBlockHeadings(group: RepoConfig)
    ensures Headings(LabelBlock(group)) == [FormatLabel(group)]
  {
    var bullets := FormatItems(group.items);
    var title := FormatLabel(group);
    var head := [title, ""];
    assert Marked(head, '#') == [title] by {
      assert head[..1] == [title] && [title][..0] == [];
      assert Marked([title], '#') == [title];
    }
    assert Marked(head + bullets, '#') == Marked(head, '#') + Marked(bullets, '#') by {
      MarkedAppend(head, bullets, '#');
    }
    assert Marked(bullets, '#') == [] by {
      ItemsMarks(group.items);
    }
    assert [title] + [] == [title];
  }

  /** The bullets of a label block are the label's items. */
  lemma LabelBlockBullets(group: RepoConfig)
    ensures Bullets(LabelBlock(group)) == FormatItems(group.items)
  {
    var bullets := FormatItems(group.items);
    var title := FormatLabel(group);
    var head := [title, ""];
    assert Marked(head, '-') == [] by {
      assert head[..1] == [title] && [title][..0] == [];
      assert Marked([title], '-') == [];
    }
    assert Marked(head + bullets, '-') == Marked(head, '-') + Marked(bullets, '-') by {
      MarkedAppend(head, bullets, '-');
    }
    assert Marked(bullets, '-') == bullets by {
      ItemsMarks(group.items);
    }
    assert [] + bullets == bullets;
  }

  /** The headings of the sections are the labels' headings, in order. */
  lemma {:induction false} SectionsHeadings(groups: seq<RepoConfig>)
    ensures Headings(Sections(groups)) == Titles(groups)
  {
    if |groups| > 0 {
      var init, last := groups[..|groups| - 1], groups[|groups| - 1];
      var sep: seq<string> := if |init| > 0 then [""] else [];
      calc {
        Marked(Sections(groups), '#');
        Marked((Sections(init) + sep) + LabelBlock(last), '#');
        { MarkedAppend(Sections(init) + sep, LabelBlock(last), '#'); }
        Marked(Sections(init) + sep, '#') + Marked(LabelBlock(last), '#');
        { MarkedAppend(Sections(init), sep, '#'); MarkedNone(sep, '#'); }
        (Marked(Sections(init), '#') + []) + Marked(LabelBlock(last), '#');
        { SectionsHeadings(init); LabelBlockHeadings(last); }
        (Titles(init) + []) + [FormatLabel(last)];
        { assert Titles(init) + [] == Titles(init); }
        Titles(groups);
      }
    }
  }

  /** The bullets of the sections are the labels' items, label after label. */
  lemma {:induction false} SectionsBullets(groups: seq<RepoConfig>)
    ensures Bullets(Sections(groups)) == FormatItems(Gathered(groups))
  {
    if |groups| > 0 {
      var init, last := groups[..|groups| - 1], groups[|groups| - 1];
      var sep: seq<string> := if |init| > 0 then [""] else [];
      calc {
        Marked(Sections(groups), '-');
        Marked((Sections(init) + sep) + LabelBlock(last), '-');
        { MarkedAppend(Sections(init) + sep, LabelBlock(last), '-'); }
        Marked(Sections(init) + sep, '-') + Marked(LabelBlock(last), '-');
        { MarkedAppend(Sections(init), sep, '-'); MarkedNone(sep, '-'); }
        (Marked(Sections(init), '-') + []) + Marked(LabelBlock(last), '-');
        { SectionsBullets(init); LabelBlockBullets(last); }
        (FormatItems(Gathered(init)) + []) + FormatItems(last.items);
        { assert FormatItems(Gathered(init)) + [] == FormatItems(Gathered(init));
          FormatItemsAppend(Gathered(init), last.items); }
        FormatItems(Gathered(groups));
      }
    }
  }

  /** Labels without items leave no trace in the gathered items. */
  lemma {:induction false} GatheredNonEmpty(groups: seq<RepoConfig>)
    ensures Gathered(NonEmptyLabels(groups)) == Gathered(groups)
  {
    if |groups| > 0 {
      var init, last := groups[..|groups| - 1], groups[|groups| - 1];
      GatheredNonEmpty(init);
      var ne := NonEmptyLabels(init);
      if |last.items| > 0 {
        assert (ne + [last])[..|ne|] == ne;
      } else {
        assert NonEmptyLabels(groups) == ne;
      }
    }
  }

  /** The opening lines of the unknown section: a blank line, its heading, a blank line. */
  lemma UnknownOpening()
    ensures Marked(["", UnknownHeading, ""], '#') == [UnknownHeading]
    ensures Marked(["", UnknownHeading, ""], '-') == []
  {
    var three := ["", UnknownHeading, ""];
    assert UnknownHeading[0] == '#';
    assert [""][..0] == [];
    assert Marked([""], '#') == [] && Marked([""], '-') == [];
    assert ["", UnknownHeading][..1] == [""];
    assert Marked(["", UnknownHeading], '#') == [UnknownHeading];
    assert Marked(["", UnknownHeading], '-') == [];
    assert three[..2] == ["", UnknownHeading];
  }

  lemma UnknownSectionMarks(unknown: seq<Item>)
    ensures Headings(UnknownSection(unknown)) == if |unknown| > 0 then [UnknownHeading] else []
    ensures Bullets(UnknownSection(unknown)) == FormatItems(unknown)
  {
    if |unknown| > 0 {
      var bullets := FormatItems(unknown);
      var three := ["", UnknownHeading, ""];
      assert Marked(three + bullets, '#') == Marked(three, '#') + Marked(bullets, '#') by {
        MarkedAppend(three, bullets, '#');
      }
      assert Marked(three + bullets, '-') == Marked(three, '-') + Marked(bullets, '-') by {
        MarkedAppend(three, bullets, '-');
      }
      UnknownOpening();
      ItemsMarks(unknown);
      assert [UnknownHeading] + [] == [UnknownHeading];
      assert [] + bullets == bullets;
    }
  }

  /** The headings of the content: one per label that has items, in order, then
      `## Unknown` exactly when some item has no label. A label without items gets
      no heading. */
  lemma ContentHeadings(groups: seq<RepoConfig>, unknown: seq<Item>)
    ensures Headings(Content(groups, unknown)) ==
      Titles(NonEmptyLabels(groups)) + (if |unknown| > 0 then [UnknownHeading] else [])
  {
    var sections := Sections(NonEmptyLabels(groups));
    calc {
      Marked(Content(groups, unknown), '#');
      { MarkedAppend(sections, UnknownSection(unknown), '#'); }
      Marked(sections, '#') + Marked(UnknownSection(unknown), '#');
      { SectionsHeadings(NonEmptyLabels(groups)); UnknownSectionMarks(unknown); }
      Titles(NonEmptyLabels(groups)) + (if |unknown| > 0 then [UnknownHeading] else []);
    }
  }

  /** The bullets of the content: every item of every label, label after label, then
      the unknown items, each once and in order. */
  lemma ContentBullets(groups: seq<RepoConfig>, unknown: seq<Item>)
    ensures Bullets(Content(groups, unknown)) == FormatItems(Gathered(groups) + unknown)
  {
    var sections := Sections(NonEmptyLabels(groups));
    calc {
      Marked(Content(groups, unknown), '-');
      { MarkedAppend(sections, UnknownSection(unknown), '-'); }
      Marked(sections, '-') + Marked(UnknownSection(unknown), '-');
      { SectionsBullets(NonEmptyLabels(groups)); UnknownSectionMarks(unknown); }
      FormatItems(Gathered(NonEmptyLabels(groups))) + FormatItems(unknown);
      { GatheredNonEmpty(groups); FormatItemsAppend(Gathered(groups), unknown); }
      FormatItems(Gathered(groups) + unknown);
    }
  }

  /** Every heading is followed by a blank line and, unless it is the first line,
      preceded by one. */
  predicate Spaced(lines: seq<string>)
  {
    forall i :: 0 <= i < |lines| && IsHeading(lines[i]) ==>
      i + 1 < |lines| && lines[i + 1] == "" && (i == 0 || lines[i - 1] == "")
  }

  /** Two spaced runs of lines stay spaced when joined, as long as a heading that opens
      the second comes after a blank line. */
  lemma SpacedAppend(a: seq<string>, b: seq<string>)
    requires Spaced(a) && Spaced(b)
    requires |a| > 0 && |b| > 0 && IsHeading(b[0]) ==> a[|a| - 1] == ""
    ensures Spaced(a + b)
  {
    var s := a + b;
    forall i | 0 <= i < |s| && IsHeading(s[i])
      ensures i + 1 < |s| && s[i + 1] == "" && (i == 0 || s[i - 1] == "")
    {
      if i < |a| {
        assert s[i] == a[i];
        assert i + 1 < |a|;
        assert s[i + 1] == a[i + 1];
        if i > 0 {
          assert s[i - 1] == a[i - 1];
        }
      } else {
        var k := i - |a|;
        assert s[i] == b[k];
        assert s[i + 1] == b[k + 1];
        if k > 0 {
          assert s[i - 1] == b[k - 1];
        }
      }
    }
  }

  lemma ItemsSpaced(items: seq<Item>)
    ensures Spaced(FormatItems(items))
    ensures |items| > 0 ==> !IsHeading(FormatItems(items)[0])
  {
    var lines := FormatItems(items);
    FormatItemsAt(items);
    forall i | 0 <= i < |lines| ensures !IsHeading(lines[i]) {
      FormatItemBullet(items[i].userLogin, items[i]);
    }
  }

  lemma LabelBlockSpaced(group: RepoConfig)
    ensures Spaced(LabelBlock(group))
  {
    var head := [FormatLabel(group), ""];
    assert Spaced(head);
    ItemsSpaced(group.items);
    SpacedAppend(head, FormatItems(group.items));
  }

  /** The sections are spaced and open with the first label's heading. */
  lemma {:induction false} SectionsLayout(groups: seq<RepoConfig>)
    ensures Spaced(Sections(groups))
    ensures |groups| > 0 ==> |Sections(groups)| > 0 && Sections(groups)[0] == FormatLabel(groups[0])
  {
    if |groups| > 0 {
      var init, last := groups[..|groups| - 1], groups[|groups| - 1];
      var front := Sections(init);
      var sep: seq<string> := if |init| > 0 then [""] else [];
      SectionsLayout(init);
      assert Spaced(front + sep) by {
        SpacedAppend(front, sep);
      }
      assert Spaced(front + sep + LabelBlock(last)) by {
        LabelBlockSpaced(last);
        SpacedAppend(front + sep, LabelBlock(last));
      }
      if |init| > 0 {
        assert groups[0] == init[0];
        assert (front + sep + LabelBlock(last))[0] == front[0];
      } else {
        assert front + sep == [];
      }
    }
  }

  /** The whole content is spaced: the `## Unknown` heading comes after a blank line. */
  lemma ContentLayout(groups: seq<RepoConfig>, unknown: seq<Item>)
    ensures Spaced(Content(groups, unknown))
  {
    var sections := Sections(NonEmptyLabels(groups));
    assert Spaced(sections) by {
      SectionsLayout(NonEmptyLabels(groups));
    }
    if |unknown| > 0 {
      assert Spaced(UnknownSection(unknown)) && UnknownSection(unknown)[0] == "" by {
        UnknownSectionLayout(unknown);
      }
      SpacedAppend(sections, UnknownSection(unknown));
    } else {
      assert sections + [] == sections;
    }
  }

  lemma UnknownSectionLayout(unknown: seq<Item>)
    requires |unknown| > 0
    ensures Spaced(UnknownSection(unknown)) && UnknownSection(unknown)[0] == ""
  {
    var three := ["", UnknownHeading, ""];
    assert Spaced(three) by {
      assert UnknownHeading[0] == '#';
    }
    ItemsSpaced(unknown);
    SpacedAppend(three, FormatItems(unknown));
  }

  /** `repos.sort_by_key(|label| label.name.clone())`. */
  function SortedLabels(config: FileConfig): seq<RepoConfig>
  {
    SortBy(config.labels, LabelNameOf)
  }

  /** The fetched items without the excluded repositories, stably sorted by repository. */
  function PreparedItems(fetched: seq<Item>, exclude: seq<string>): seq<Item>
  {
    SortBy(Retained(fetched, exclude), RepositoryNameOf)
  }

  /** What the grouped branch of `main` writes: the header lines, the content lines,
      `BREAK_LINE`, the definition lines. */
  function GroupedDocument(config: FileConfig, fetched: seq<Item>): string
  {
    var groups := SortedLabels(config);
    var items := PreparedItems(fetched, config.exclude);
    Join(config.header, "\n") + Join(Content(Matched(groups, items), Unknown(groups, items)), "\n")
      + BreakLine + Join(Definitions(items), "\n")
  }

  /** What the fallback branch of `main` writes: the bullets of the sorted items,
      `BREAK_LINE`, the definition lines. */
  function FlatDocument(fetched: seq<Item>): string
  {
    FlatText(SortBy(fetched, RepositoryNameOf))
  }

  function FlatText(items: seq<Item>): string
  {
    Join(FormatItems(items), "\n") + BreakLine + Join(Definitions(items), "\n")
  }

  /** Nothing that reaches the grouped report comes from an excluded repository: not the
      items handed to the matcher, not those it adds to the labels or to the unknown
      list, and not the items behind the definition lines. */
  lemma ExcludedRepositoriesAbsent(config: FileConfig, fetched: seq<Item>)
    ensures var groups := SortedLabels(config);
      var items := PreparedItems(fetched, config.exclude);
      && (forall x :: x in items <==> x in fetched && x.repositoryName !in config.exclude)
      && (forall j, x :: 0 <= j < |groups| && x in Bucket(groups, items, Some(j)) ==>
            x in fetched && x.repositoryName !in config.exclude)
      && (forall x :: x in Unknown(groups, items) ==> x in fetched && x.repositoryName !in config.exclude)
      && (forall line :: line in Definitions(items) ==>
            exists x :: x in fetched && x.repositoryName !in config.exclude
              && (line == UserDefinition(x) || line == RepositoryDefinition(x)))
  {
    PreparedItemsMembership(fetched, config.exclude);
    var groups := SortedLabels(config);
    var items := PreparedItems(fetched, config.exclude);
    BucketsAdmitted(groups, items, fetched, config.exclude);
    DefinitionsAdmitted(items, fetched, config.exclude);
  }

  /** The prepared items are the fetched ones outside the excluded repositories. */
  lemma PreparedItemsMembership(fetched: seq<Item>, exclude: seq<string>)
    ensures forall x :: x in PreparedItems(fetched, exclude) <==> x in fetched && x.repositoryName !in exclude
  {
    SortByElements(Retained(fetched, exclude), RepositoryNameOf);
  }

  /** The matcher only hands out items it was given. */
  lemma BucketsAdmitted(groups: seq<RepoConfig>, items: seq<Item>, fetched: seq<Item>, exclude: seq<string>)
    requires forall x :: x in items ==> x in fetched && x.repositoryName !in exclude
    ensures forall j, x :: 0 <= j < |groups| && x in Bucket(groups, items, Some(j)) ==>
      x in fetched && x.repositoryName !in exclude
    ensures forall x :: x in Unknown(groups, items) ==> x in fetched && x.repositoryName !in exclude
  {
    forall j, x | 0 <= j < |groups| && x in Bucket(groups, items, Some(j))
      ensures x in fetched && x.repositoryName !in exclude
    {
      BucketMembership(groups, items, Some(j), x);
    }
    forall x | x in Unknown(groups, items)
      ensures x in fetched && x.repositoryName !in exclude
    {
      BucketMembership(groups, items, None, x);
    }
  }

  /** Every definition line comes from one of the given items. */
  lemma DefinitionsAdmitted(items: seq<Item>, fetched: seq<Item>, exclude: seq<string>)
    requires forall x :: x in items ==> x in fetched && x.repositoryName !in exclude
    ensures forall line :: line in Definitions(items) ==>
      exists x :: x in fetched && x.repositoryName !in exclude
        && (line == UserDefinition(x) || line == RepositoryDefinition(x))
  {
    forall line | line in Definitions(items)
      ensures exists x :: (x in fetched && x.repositoryName !in exclude
        && (line == UserDefinition(x) || line == RepositoryDefinition(x)))
    {
      var i :| 0 <= i < |items| && (line == UserDefinition(items[i]) || line == RepositoryDefinition(items[i]));
      assert items[i] in items;
    }
  }

  /** No field of the item holds a line feed. */
  predicate SingleLine(item: Item)
  {
    && '\n' !in item.issueNumber && '\n' !in item.issueTitle && '\n' !in item.issueUrl
    && '\n' !in item.repositoryName && '\n' !in item.repositoryUrl
    && '\n' !in item.userLogin && '\n' !in item.userUrl
  }

  /** Read back line by line, the flat report is the items' bullets, one blank line, and
      the definitions, as long as no field holds a line feed. */
  lemma FlatDocumentLines(fetched: seq<Item>)
    requires |fetched| > 0
    requires forall i :: 0 <= i < |fetched| ==> SingleLine(fetched[i])
    ensures var items := SortBy(fetched, RepositoryNameOf);
      Split(FlatDocument(fetched), '\n') == FormatItems(items) + [""] + Definitions(items)
  {
    var items := SortBy(fetched, RepositoryNameOf);
    assert |items| > 0 && forall x :: x in items ==> SingleLine(x) by {
      SortedSingleLine(fetched);
    }
    FlatLines(items);
  }

  lemma SortedSingleLine(fetched: seq<Item>)
    requires forall i :: 0 <= i < |fetched| ==> SingleLine(fetched[i])
    ensures |SortBy(fetched, RepositoryNameOf)| == |fetched|
    ensures forall x :: x in SortBy(fetched, RepositoryNameOf) ==> SingleLine(x)
  {
    SortByElements(fetched, RepositoryNameOf);
    forall x | x in SortBy(fetched, RepositoryNameOf) ensures SingleLine(x) {
      var i :| 0 <= i < |fetched| && fetched[i] == x;
    }
  }

  /** The lines of the bullets, a blank line and the definitions of the given items. */
  lemma FlatLines(items: seq<Item>)
    requires |items| > 0
    requires forall x :: x in items ==> SingleLine(x)
    ensures Split(FlatText(items), '\n') == FormatItems(items) + [""] + Definitions(items)
  {
    var bullets, defs := FormatItems(items), Definitions(items);
    assert |defs| > 0 by {
      assert items[0] in items;
      assert UserDefinition(items[0]) in defs;
    }
    BulletsSingleLine(items);
    DefinitionsSingleLine(items);
    JoinAroundBreak(bullets, defs);
    LinesAroundBreak(bullets, defs);
    SplitJoin(bullets + [""] + defs, '\n');
  }

  /** No line of the two runs, nor the blank line between them, holds a line feed. */
  lemma LinesAroundBreak(p: seq<string>, q: seq<string>)
    requires forall j :: 0 <= j < |p| ==> '\n' !in p[j]
    requires forall j :: 0 <= j < |q| ==> '\n' !in q[j]
    ensures forall j :: 0 <= j < |p + [""] + q| ==> '\n' !in (p + [""] + q)[j]
  {
    var lines := p + [""] + q;
    forall j | 0 <= j < |lines| ensures '\n' !in lines[j] {
      if j < |p| {
        assert lines[j] == p[j];
      } else if j > |p| {
        assert lines[j] == q[j - |p| - 1];
      } else {
        assert lines[j] == "";
      }
    }
  }

  /** A blank line between two non-empty runs joins to `BREAK_LINE` between them. */
  lemma JoinAroundBreak(p: seq<string>, q: seq<string>)
    requires |p| > 0 && |q| > 0
    ensures Join(p + [""] + q, "\n") == Join(p, "\n") + BreakLine + Join(q, "\n")
  {
    var a, b := Join(p, "\n"), Join(q, "\n");
    calc {
      Join(p + [""] + q, "\n");
      { JoinAppend(p + [""], q, "\n"); }
      Join(p + [""], "\n") + "\n" + b;
      { JoinAppend(p, [""], "\n"); }
      (a + "\n" + Join([""], "\n")) + "\n" + b;
      { assert Join([""], "\n") == ""; }
      (a + "\n" + "") + "\n" + b;
      { assert (a + "\n" + "") + "\n" + b == a + ("\n" + "\n") + b; }
      a + ("\n" + "\n") + b;
      { assert "\n" + "\n" == BreakLine; }
      a + BreakLine + b;
    }
  }

  /** The lines made from a single-line item hold no line feed. */
  lemma ItemLinesSingle(item: Item)
    requires SingleLine(item)
    ensures '\n' !in FormatItem(item.userLogin, item)
    ensures '\n' !in UserDefinition(item) && '\n' !in RepositoryDefinition(item)
  {
  }

  lemma BulletsSingleLine(items: seq<Item>)
    requires forall x :: x in items ==> SingleLine(x)
    ensures forall j :: 0 <= j < |FormatItems(items)| ==> '\n' !in FormatItems(items)[j]
  {
    var bullets := FormatItems(items);
    FormatItemsAt(items);
    forall j | 0 <= j < |bullets| ensures '\n' !in bullets[j] {
      assert items[j] in items;
      ItemLinesSingle(items[j]);
    }
  }

  lemma DefinitionsSingleLine(items: seq<Item>)
    requires forall x :: x in items ==> SingleLine(x)
    ensures forall j :: 0 <= j < |Definitions(items)| ==> '\n' !in Definitions(items)[j]
  {
    var defs := Definitions(items);
    forall j | 0 <= j < |defs| ensures '\n' !in defs[j] {
      assert defs[j] in defs;
      var i :| 0 <= i < |items| && (defs[j] == UserDefinition(items[i]) || defs[j] == RepositoryDefinition(items[i]));
      assert items[i] in items;
      ItemLinesSingle(items[i]);
    }
  }

  /** The `for (i, label) in ... .enumerate()` loop and the unknown section that follows. */
  method RenderContent(groups: array<RepoConfig>, unknown: seq<Item>) returns (content: seq<string>)
    ensures content == Content(groups[..], unknown)
  {
    content := [];
    var rendered := 0;
    for j := 0 to groups.Length
      invariant content == Sections(NonEmptyLabels(groups[..j]))
      invariant rendered == |NonEmptyLabels(groups[..j])|
    {
      var group := groups[j];
      assert groups[..j + 1] == groups[..j] + [group];
      SectionsStep(groups[..j], group);
      if |group.items| > 0 {
        if rendered > 0 {
          content := content + [""];
        }
        content := content + [FormatLabel(group), ""];
        content := content + FormatItems(group.items);
        rendered := rendered + 1;
      }
    }
    assert groups[..groups.Length] == groups[..];
    if |unknown| > 0 {
      content := content + ["", UnknownHeading, ""];
      content := content + FormatItems(unknown);
    }
  }

  /** What one more label adds to the rendered sections, spelt the way the loop adds it. */
  lemma SectionsStep(prefix: seq<RepoConfig>, group: RepoConfig)
    ensures var before, after := NonEmptyLabels(prefix), NonEmptyLabels(prefix + [group]);
      && (|group.items| == 0 ==> after == before)
      && (|group.items| > 0 ==> |after| == |before| + 1)
      && (|group.items| > 0 && |before| > 0 ==>
            Sections(after) == Sections(before) + [""] + [FormatLabel(group), ""] + FormatItems(group.items))
      && (|group.items| > 0 && |before| == 0 ==>
            Sections(after) == Sections(before) + [FormatLabel(group), ""] + FormatItems(group.items))
  {
    var before, after := NonEmptyLabels(prefix), NonEmptyLabels(prefix + [group]);
    assert after == before + (if |group.items| > 0 then [group] else []) by {
      NonEmptyLabelsSnoc(prefix, group);
    }
    if |group.items| > 0 {
      var sep: seq<string> := if |before| > 0 then [""] else [];
      var heading, bullets := [FormatLabel(group), ""], FormatItems(group.items);
      calc {
        Sections(after);
        Sections(before + [group]);
        { SectionsSnoc(before, group); }
        Sections(before) + sep + (heading + bullets);
        Sections(before) + sep + heading + bullets;
      }
      if |before| == 0 {
        assert Sections(before) + sep == Sections(before);
      }
    } else {
      assert before + [] == before;
    }
  }

  /** The grouped branch of `main`, from the parsed configuration and the fetched items
      to the text written to the file. */
  method RenderGrouped(config: FileConfig, fetched: seq<Item>) returns (text: string)
    ensures text == GroupedDocument(config, fetched)
  {
    var sorted := SortBy(config.labels, LabelNameOf);
    var groups := new RepoConfig[|sorted|](i requires 0 <= i < |sorted| => sorted[i]);
    assert groups[..] == sorted;
    var items := SortBy(Retained(fetched, config.exclude), RepositoryNameOf);
    var definitions := ExtractDefinitions(items);
    var unknown := MatchItemsWithLabels(groups, items);
    var content := RenderContent(groups, unknown);
    text := Join(config.header, "\n") + Join(content, "\n") + BreakLine + Join(definitions, "\n");
  }

  /** The fallback branch of `main`. */
  method RenderFlat(fetched: seq<Item>) returns (text: string)
    ensures text == FlatDocument(fetched)
  {
    var items := SortBy(fetched, RepositoryNameOf);
    var definitions := ExtractDefinitions(items);
    var content := FormatItems(items);
    text := Join(content, "\n") + BreakLine + Join(definitions, "\n");
  }

  /** The command line arguments the report uses. */
  datatype Args = Args(users: seq<string>, date: string, dateSign: string)

  /** The file `main` creates and what it writes into it. */
  datatype Output = Output(fileName: string, contents: string)

  /** The users whose pull requests are searched: the configuration's, unless it
      lists none. */
  function ReportUsers(config: FileConfig, args: Args): seq<string>
  {
    if |config.users| > 0 then config.users else args.users
  }

  /** `main`: `config` is the parsed configuration file, or `None` when it could not be
      read; `search` answers the queries. The run fails where `get_user_items` panics. */
  function Report(config: Option<FileConfig>, args: Args, search: string -> seq<seq<Issue>>): (r: Result<Output, FetchError>)
    ensures r.Success? ==> r.value.fileName == args.date + ".md"
    ensures config.Some? && |config.value.users| > 0 ==>
      (r.Success? <==> FetchItems(search, config.value.users, args.dateSign, args.date).Success?)
    ensures config.Some? && |config.value.users| == 0 ==>
      (r.Success? <==> FetchItems(search, args.users, args.dateSign, args.date).Success?)
    ensures config.None? ==> (r.Success? <==> FetchItems(search, args.users, args.dateSign, args.date).Success?)
  {
    match config
    case Some(c) =>
      (match FetchItems(search, ReportUsers(c, args), args.dateSign, args.date)
       case Failure(e) => Failure(e)
       case Success(fetched) => Success(Output(args.date + ".md", GroupedDocument(c, fetched))))
    case None =>
      (match FetchItems(search, args.users, args.dateSign, args.date)
       case Failure(e) => Failure(e)
       case Success(fetched) => Success(Output(args.date + ".md", FlatDocument(fetched))))
  }

  method Run(config: Option<FileConfig>, args: Args, search: string -> seq<seq<Issue>>) returns (r: Result<Output, FetchError>)
    ensures r == Report(config, args, search)
  {
    var fileName := args.date + ".md";
    match config
    case Some(c) => {
      var users := if |c.users| > 0 then c.users else args.users;
      var fetched := GetUserItems(search, users, args.dateSign, args.date);
      match fetched
      case Failure(e) => {
        r := Failure(e);
      }
      case Success(items) => {
        var text := RenderGrouped(c, items);
        r := Success(Output(fileName, text));
      }
    }
    case None => {
      var fetched := GetUserItems(search, args.users, args.dateSign, args.date);
      match fetched
      case Failure(e) => {
        r := Failure(e);
      }
      case Success(items) => {
        var text := RenderFlat(items);
        r := Success(Output(fileName, text));
      }
    }
  }
}
