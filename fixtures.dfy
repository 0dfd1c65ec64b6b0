/** The fixtures of the repository's unit tests (src/main.rs, `mod tests`) and what the
    tests expect of them, stated as facts about the model. */
module Fixtures {
  import opened Base
  import opened Order
  import opened Model
  import opened Format
  import opened Links
  import opened Labels
  import opened FixtureLines

  /** The first item of `items_helper`. */
  const AtomItem: Item := Item(
    "63",
    "Update nan",
    "https://github.com/atom/keyboard-layout/pull/63",
    "atom/keyboard-layout",
    "https://github.com/atom/keyboard-layout",
    "mansona",
    "https://github.com/mansona")

  /** The second item of `items_helper`. */
  const EmberItem: Item := Item(
    "798",
    "Ember 4 compatibility",
    "https://github.com/ember-engines/ember-engines/pull/798",
    "ember-engines/ember-engines",
    "https://github.com/ember-engines/ember-engines",
    "BobrImperator",
    "https://github.com/BobrImperator")

  /** The one label of `repo_configs_helper`. */
  const EmberLabel: RepoConfig := RepoConfig("Ember", ["ember-engines/ember-engines"], [])

  /** `it_formats_label`. */
  lemma FormatsLabel()
    ensures FormatLabel(EmberLabel) == "## Ember"
  {
  }

  /** `it_formats_item`: the Atom item's bullet, byte for byte. */
  lemma FormatsItem()
    ensures FormatItem("mansona", AtomItem) == "- [atom/keyboard-layout] [#63](https://github.com/atom/keyboard-layout/pull/63) Update nan ([@mansona])"
  {
    AtomBulletSteps1();
    AtomBulletSteps2();
    AtomBulletSteps3();
    AtomBulletSteps4();
    AtomBulletSteps5();
    AtomBulletSteps6();
    AtomBulletSteps7();
    AtomBulletSteps8();
    AtomBulletSteps9();
    AtomBulletSteps10();
    AtomBulletSteps11();
    AppendAssoc("- [", "atom/keybo", "ard-layout");
    AppendAssoc("- [atom/keyboard-layout] [#63](", "https://gi", "thub.com/a");
    AppendAssoc("- [atom/keyboard-layout] [#63](", "https://github.com/a", "tom/keyboa");
    AppendAssoc("- [atom/keyboard-layout] [#63](", "https://github.com/atom/keyboa", "rd-layout/");
    AppendAssoc("- [atom/keyboard-layout] [#63](", "https://github.com/atom/keyboard-layout/", "pull/63");
  }

  /** The Ember item's bullet, byte for byte: its link, then the rest of the line. */
  lemma FormatsEmberItem()
    ensures FormatItem("BobrImperator", EmberItem)
      == "- [ember-engines/ember-engines] [#798](https://github.com/ember-engines/ember-engines/pull/798"
      + ") Ember 4 compatibility ([@BobrImperator])"
  {
    EmberBulletSteps1();
    EmberBulletSteps2();
    EmberBulletSteps3();
    EmberBulletSteps4();
    EmberBulletSteps5();
    EmberBulletSteps6();
    EmberBulletSteps7();
    EmberBulletSteps8();
    EmberBulletSteps9();
    EmberBulletSteps10();
    EmberBulletSteps11();
    EmberBulletSteps12();
    AppendAssoc("- [", "ember-engi", "nes/ember-");
    AppendAssoc("- [", "ember-engines/ember-", "engines");
    AppendAssoc("- [ember-engines/ember-engines] [#798](", "https://gi", "thub.com/e");
    AppendAssoc("- [ember-engines/ember-engines] [#798](", "https://github.com/e", "mber-engin");
    AppendAssoc("- [ember-engines/ember-engines] [#798](", "https://github.com/ember-engin", "es/ember-e");
    AppendAssoc("- [ember-engines/ember-engines] [#798](", "https://github.com/ember-engines/ember-e", "ngines/pul");
    AppendAssoc("- [ember-engines/ember-engines] [#798](", "https://github.com/ember-engines/ember-engines/pul", "l/798");
    AppendAssoc("- [ember-engines/ember-engines] [#798](https://github.com/ember-engines/ember-engines/pull/798", ") ", "Ember 4 co");
    AppendAssoc("- [ember-engines/ember-engines] [#798](https://github.com/ember-engines/ember-engines/pull/798" + ") ", "Ember 4 co", "mpatibilit");
    AppendAssoc("- [ember-engines/ember-engines] [#798](https://github.com/ember-engines/ember-engines/pull/798", ") Ember 4 co", "mpatibilit");
    AppendAssoc("- [ember-engines/ember-engines] [#798](https://github.com/ember-engines/ember-engines/pull/798" + ") ", "Ember 4 compatibilit", "y");
    AppendAssoc("- [ember-engines/ember-engines] [#798](https://github.com/ember-engines/ember-engines/pull/798", ") Ember 4 compatibilit", "y");
    AppendAssoc("- [ember-engines/ember-engines] [#798](https://github.com/ember-engines/ember-engines/pull/798", ") Ember 4 compatibility", " ([@");
    AppendAssoc("- [ember-engines/ember-engines] [#798](https://github.com/ember-engines/ember-engines/pull/798", ") Ember 4 compatibility ([@", "BobrImpera");
    AppendAssoc("- [ember-engines/ember-engines] [#798](https://github.com/ember-engines/ember-engines/pull/798" + ") Ember 4 compatibility ([@", "BobrImpera", "tor");
    AppendAssoc("- [ember-engines/ember-engines] [#798](https://github.com/ember-engines/ember-engines/pull/798", ") Ember 4 compatibility ([@BobrImpera", "tor");
    AppendAssoc("- [ember-engines/ember-engines] [#798](https://github.com/ember-engines/ember-engines/pull/798", ") Ember 4 compatibility ([@BobrImperator", "])");
  }

  /** The lines of two items: the first item's bullet, then the second's. */
  lemma FormatsPair(p: Item, q: Item)
    ensures FormatItems([p, q]) == [FormatItem(p.userLogin, p), FormatItem(q.userLogin, q)]
  {
    assert [p, q][1..] == [q];
  }

  /** `it_formats_items`: one bullet per item, in order, each naming its own author. */
  lemma FormatsItems()
    ensures FormatItems([AtomItem, EmberItem]) == [
      "- [atom/keyboard-layout] [#63](https://github.com/atom/keyboard-layout/pull/63) Update nan ([@mansona])",
      "- [ember-engines/ember-engines] [#798](https://github.com/ember-engines/ember-engines/pull/798"
        + ") Ember 4 compatibility ([@BobrImperator])"]
  {
    FormatsPair(AtomItem, EmberItem);
    FormatsItem();
    FormatsEmberItem();
  }

  /** The user line of the Ember item's author, byte for byte. */
  lemma BobrImperatorLine()
    ensures UserDefinition(EmberItem) == "[@BobrImperator]: https://github.com/BobrImperator"
  {
    BobrImperatorLineSteps1();
    BobrImperatorLineSteps2();
    BobrImperatorLineSteps3();
    AppendAssoc("[@", "BobrImpera", "tor");
    AppendAssoc("[@BobrImperator]: ", "https://gi", "thub.com/B");
    AppendAssoc("[@BobrImperator]: ", "https://github.com/B", "obrImperat");
    AppendAssoc("[@BobrImperator]: ", "https://github.com/BobrImperat", "or");
  }

  /** The user line of the Atom item's author, byte for byte. */
  lemma MansonaLine()
    ensures UserDefinition(AtomItem) == "[@mansona]: https://github.com/mansona"
  {
    MansonaLineSteps1();
    AppendAssoc("[@mansona]: ", "https://gi", "thub.com/m");
    AppendAssoc("[@mansona]: ", "https://github.com/m", "ansona");
  }

  /** The repository line of the Atom item, byte for byte. */
  lemma AtomRepositoryLine()
    ensures RepositoryDefinition(AtomItem) == "[atom/keyboard-layout]: https://github.com/atom/keyboard-layout"
  {
    AtomRepositoryLineSteps1();
    AtomRepositoryLineSteps2();
    AtomRepositoryLineSteps3();
    AtomRepositoryLineSteps4();
    AppendAssoc("[", "atom/keybo", "ard-layout");
    AppendAssoc("[atom/keyboard-layout]: ", "https://gi", "thub.com/a");
    AppendAssoc("[atom/keyboard-layout]: ", "https://github.com/a", "tom/keyboa");
    AppendAssoc("[atom/keyboard-layout]: ", "https://github.com/atom/keyboa", "rd-layout");
  }

  /** The repository line of the Ember item, byte for byte. */
  lemma EmberRepositoryLine()
    ensures RepositoryDefinition(EmberItem) == "[ember-engines/ember-engines]: https://github.com/ember-engines/ember-engines"
  {
    EmberRepositoryLineSteps1();
    EmberRepositoryLineSteps2();
    EmberRepositoryLineSteps3();
    EmberRepositoryLineSteps4();
    EmberRepositoryLineSteps5();
    EmberRepositoryLineSteps6();
    AppendAssoc("[", "ember-engi", "nes/ember-");
    AppendAssoc("[", "ember-engines/ember-", "engines");
    AppendAssoc("[ember-engines/ember-engines]: ", "https://gi", "thub.com/e");
    AppendAssoc("[ember-engines/ember-engines]: ", "https://github.com/e", "mber-engin");
    AppendAssoc("[ember-engines/ember-engines]: ", "https://github.com/ember-engin", "es/ember-e");
    AppendAssoc("[ember-engines/ember-engines]: ", "https://github.com/ember-engines/ember-e", "ngines");
  }

  /** Two items whose logins differ in the first character: their user lines sort as
      their logins do. */
  lemma LoginLess(p: Item, q: Item)
    requires |p.userLogin| > 0 && |q.userLogin| > 0 && p.userLogin[0] < q.userLogin[0]
    ensures Less(UserDefinition(p), UserDefinition(q))
  {
    var a, b := UserDefinition(p), UserDefinition(q);
    assert a[..2] == "[@" == b[..2];
    assert a[2] == p.userLogin[0] && b[2] == q.userLogin[0];
    LessAt(a, b, 2);
  }

  /** Two items whose repository names differ in the first character. */
  lemma RepositoryNameLess(p: Item, q: Item)
    requires |p.repositoryName| > 0 && |q.repositoryName| > 0 && p.repositoryName[0] < q.repositoryName[0]
    ensures Less(RepositoryDefinition(p), RepositoryDefinition(q))
  {
    var a, b := RepositoryDefinition(p), RepositoryDefinition(q);
    assert a[..1] == "[" == b[..1];
    assert a[1] == p.repositoryName[0] && b[1] == q.repositoryName[0];
    LessAt(a, b, 1);
  }

  /** The user block of two items with distinct, ordered lines. */
  lemma PairUserBlock(p: Item, q: Item)
    requires Less(UserDefinition(p), UserDefinition(q))
    ensures UserBlock([p, q]) == [UserDefinition(p), UserDefinition(q)]
    ensures UserBlock([q, p]) == [UserDefinition(p), UserDefinition(q)]
  {
    var lines := [UserDefinition(p), UserDefinition(q)];
    assert StrictlySorted(lines);
    StrictlySortedUnique(UserBlock([p, q]), lines);
    StrictlySortedUnique(UserBlock([q, p]), lines);
  }

  /** The repository block of two items with distinct, ordered lines. */
  lemma PairRepositoryBlock(p: Item, q: Item)
    requires Less(RepositoryDefinition(p), RepositoryDefinition(q))
    ensures RepositoryBlock([p, q]) == [RepositoryDefinition(p), RepositoryDefinition(q)]
  {
    var lines := [RepositoryDefinition(p), RepositoryDefinition(q)];
    assert StrictlySorted(lines);
    StrictlySortedUnique(RepositoryBlock([p, q]), lines);
  }

  /** The definitions of two items whose user lines sort one way and whose repository
      lines sort the other. */
  lemma PairDefinitions(p: Item, q: Item)
    requires Less(UserDefinition(q), UserDefinition(p))
    requires Less(RepositoryDefinition(p), RepositoryDefinition(q))
    ensures Definitions([p, q]) ==
      [UserDefinition(q), UserDefinition(p), RepositoryDefinition(p), RepositoryDefinition(q)]
  {
    PairUserBlock(q, p);
    PairRepositoryBlock(p, q);
  }

  /** `it_extracts_definitions`: the user lines sorted (`B` sorts before `m`), then the
      repository lines sorted (`a` before `e`). */
  lemma ExtractsDefinitions()
    ensures Definitions([AtomItem, EmberItem]) == [
      "[@BobrImperator]: https://github.com/BobrImperator",
      "[@mansona]: https://github.com/mansona",
      "[atom/keyboard-layout]: https://github.com/atom/keyboard-layout",
      "[ember-engines/ember-engines]: https://github.com/ember-engines/ember-engines"]
  {
    LoginLess(EmberItem, AtomItem);
    RepositoryNameLess(AtomItem, EmberItem);
    PairDefinitions(AtomItem, EmberItem);
    BobrImperatorLine();
    MansonaLine();
    AtomRepositoryLine();
    EmberRepositoryLine();
  }

  /** `it_matches_items_with_labels`: the Ember label gets the Ember item, and the Atom
      item, which no label claims, is unknown. */
  lemma MatchesItemsWithLabels()
    ensures Matched([EmberLabel], [AtomItem, EmberItem]) ==
      [RepoConfig("Ember", ["ember-engines/ember-engines"], [EmberItem])]
    ensures Unknown([EmberLabel], [AtomItem, EmberItem]) == [AtomItem]
  {
    var labels, items := [EmberLabel], [AtomItem, EmberItem];
    assert AtomItem.repositoryName !in EmberLabel.repos;
    assert FirstMatch(labels, AtomItem.repositoryName) == None by {
      assert FirstMatch(labels[1..], AtomItem.repositoryName) == None;
    }
    assert FirstMatch(labels, EmberItem.repositoryName) == Some(0);
    assert items[..1] == [AtomItem] && [AtomItem][..0] == [];
    assert Bucket(labels, [AtomItem], Some(0)) == [];
    assert Bucket(labels, items, Some(0)) == [EmberItem];
    assert Bucket(labels, [AtomItem], None) == [AtomItem];
    assert Unknown(labels, items) == [AtomItem];
    var matched := Matched(labels, items);
    assert matched[0].items == [] + [EmberItem];
  }

  /** Two items of one login whose profile URLs first differ at `j`: their user lines
      sort as their URLs do. */
  lemma UrlLess(p: Item, q: Item, j: nat)
    requires p.userLogin == q.userLogin
    requires j < |p.userUrl| && j < |q.userUrl|
    requires p.userUrl[..j] == q.userUrl[..j] && p.userUrl[j] < q.userUrl[j]
    ensures Less(UserDefinition(p), UserDefinition(q))
  {
    var lead := "[@" + p.userLogin + "]: ";
    var a, b := UserDefinition(p), UserDefinition(q);
    assert a == lead + p.userUrl && b == lead + q.userUrl;
    var k := |lead| + j;
    assert a[..k] == lead + p.userUrl[..j];
    assert b[..k] == lead + q.userUrl[..j];
    assert a[k] == p.userUrl[j] && b[k] == q.userUrl[j];
    LessAt(a, b, k);
  }

  /** One login seen with two profile URLs gets two definition lines, sorted by URL. */
  lemma TwoUrlsTwoLines()
    ensures var other := AtomItem.(userUrl := "https://example.com/mansona");
      UserBlock([AtomItem, other]) == [UserDefinition(other), UserDefinition(AtomItem)]
  {
    var other := AtomItem.(userUrl := "https://example.com/mansona");
    assert other.userUrl[..8] == "https://" == AtomItem.userUrl[..8];
    assert other.userUrl[8] == 'e' && AtomItem.userUrl[8] == 'g';
    UrlLess(other, AtomItem, 8);
    PairUserBlock(other, AtomItem);
  }
}
