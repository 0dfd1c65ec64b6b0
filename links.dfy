/** The reference-style link definitions at the end of the report (src/main.rs,
    `extract_definitions`): one line per distinct user definition, sorted, then one
    line per distinct repository definition, sorted. Two items share a line only
    when they produce the same text, so a login seen with two profile URLs gets
    two lines. */
module Links {
  import opened Model
  import opened Order

  /** `[@login]: user_url`. */
  function UserDefinition(item: Item): string
  {
    "[@" + item.userLogin + "]: " + item.userUrl
  }

  /** `[owner/repo]: repository_url`. */
  function RepositoryDefinition(item: Item): string
  {
    "[" + item.repositoryName + "]: " + item.repositoryUrl
  }

  /** A definition line for a user: it opens with `[@`. */
  predicate IsUserLine(line: string)
  {
    |line| >= 2 && line[0] == '[' && line[1] == '@'
  }

  function UserLines(items: seq<Item>): (lines: seq<string>)
    ensures |lines| == |items|
    ensures forall i :: 0 <= i < |items| ==> lines[i] == UserDefinition(items[i])
  {
    if |items| == 0 then [] else [UserDefinition(items[0])] + UserLines(items[1..])
  }

  function RepositoryLines(items: seq<Item>): (lines: seq<string>)
    ensures |lines| == |items|
    ensures forall i :: 0 <= i < |items| ==> lines[i] == RepositoryDefinition(items[i])
  {
    if |items| == 0 then [] else [RepositoryDefinition(items[0])] + RepositoryLines(items[1..])
  }

  /** The sorted, distinct user definitions of the items. */
  function UserBlock(items: seq<Item>): (block: seq<string>)
    ensures StrictlySorted(block)
    ensures forall y :: y in block <==> exists i :: 0 <= i < |items| && y == UserDefinition(items[i])
  {
    var lines := UserLines(items);
    assert forall y :: y in lines <==> exists i :: 0 <= i < |items| && y == UserDefinition(items[i]) by {
      forall y ensures y in lines <==> exists i :: 0 <= i < |items| && y == UserDefinition(items[i]) {
        if y in lines {
          var i :| 0 <= i < |lines| && lines[i] == y;
          assert y == UserDefinition(items[i]);
        }
      }
    }
    SortUnique(lines)
  }

  /** The sorted, distinct repository definitions of the items. */
  function RepositoryBlock(items: seq<Item>): (block: seq<string>)
    ensures StrictlySorted(block)
    ensures forall y :: y in block <==> exists i :: 0 <= i < |items| && y == RepositoryDefinition(items[i])
  {
    var lines := RepositoryLines(items);
    assert forall y :: y in lines <==> exists i :: 0 <= i < |items| && y == RepositoryDefinition(items[i]) by {
      forall y ensures y in lines <==> exists i :: 0 <= i < |items| && y == RepositoryDefinition(items[i]) {
        if y in lines {
          var i :| 0 <= i < |lines| && lines[i] == y;
          assert y == RepositoryDefinition(items[i]);
        }
      }
    }
    SortUnique(lines)
  }

  /** What `extract_definitions` returns: the user block, then the repository block.
      Every line comes from an item, and every item contributes both of its lines. */
  function Definitions(items: seq<Item>): (defs: seq<string>)
    ensures forall line :: line in defs <==>
      exists i :: 0 <= i < |items| && (line == UserDefinition(items[i]) || line == RepositoryDefinition(items[i]))
  {
    UserBlock(items) + RepositoryBlock(items)
  }

  /** The definitions depend only on the set of items: not on their order, and not on
      repeated items. */
  lemma DefinitionsDependOnlyOnItemSet(a: seq<Item>, b: seq<Item>)
    requires forall x :: x in a <==> x in b
    ensures Definitions(a) == Definitions(b)
  {
    forall y ensures y in UserBlock(a) <==> y in UserBlock(b) {
      if y in UserBlock(a) {
        var i :| 0 <= i < |a| && y == UserDefinition(a[i]);
        assert a[i] in b;
        var k :| 0 <= k < |b| && b[k] == a[i];
      }
      if y in UserBlock(b) {
        var i :| 0 <= i < |b| && y == UserDefinition(b[i]);
        assert b[i] in a;
        var k :| 0 <= k < |a| && a[k] == b[i];
      }
    }
    forall y ensures y in RepositoryBlock(a) <==> y in RepositoryBlock(b) {
      if y in RepositoryBlock(a) {
        var i :| 0 <= i < |a| && y == RepositoryDefinition(a[i]);
        assert a[i] in b;
        var k :| 0 <= k < |b| && b[k] == a[i];
      }
      if y in RepositoryBlock(b) {
        var i :| 0 <= i < |b| && y == RepositoryDefinition(b[i]);
        assert b[i] in a;
        var k :| 0 <= k < |a| && a[k] == b[i];
      }
    }
    StrictlySortedUnique(UserBlock(a), UserBlock(b));
    StrictlySortedUnique(RepositoryBlock(a), RepositoryBlock(b));
  }

  /** A repository definition opens with `[@` only when the repository name opens with `@`. */
  lemma RepositoryDefinitionIsNotUserLine(item: Item)
    requires |item.repositoryName| == 0 || item.repositoryName[0] != '@'
    ensures !IsUserLine(RepositoryDefinition(item))
  {
    var line := RepositoryDefinition(item);
    if |item.repositoryName| == 0 {
      assert line[1] == ']';
    } else {
      assert line[1] == item.repositoryName[0];
    }
  }

  /** The user lines come first, the repository lines after them, and no line is
      repeated, as long as no repository name opens with `@` (GitHub owner names
      cannot). */
  lemma DefinitionsLayout(items: seq<Item>)
    requires forall i :: 0 <= i < |items| ==>
      |items[i].repositoryName| == 0 || items[i].repositoryName[0] != '@'
    ensures var defs := Definitions(items);
      && (forall i :: 0 <= i < |UserBlock(items)| ==> IsUserLine(defs[i]))
      && (forall i :: |UserBlock(items)| <= i < |defs| ==> !IsUserLine(defs[i]))
      && (forall i, j :: 0 <= i < j < |defs| ==> defs[i] != defs[j])
  {
    var users, repositories := UserBlock(items), RepositoryBlock(items);
    var defs := users + repositories;
    UserBlockLines(items);
    RepositoryBlockLines(items);
    forall i | 0 <= i < |defs| ensures IsUserLine(defs[i]) <==> i < |users| {
      if i < |users| {
        assert defs[i] == users[i];
      } else {
        assert defs[i] == repositories[i - |users|];
      }
    }
    forall i, j | 0 <= i < j < |defs| ensures defs[i] != defs[j] {
      if j < |users| {
        assert defs[i] == users[i] && defs[j] == users[j];
        LessIrreflexive(defs[i]);
      } else if |users| <= i {
        assert defs[i] == repositories[i - |users|] && defs[j] == repositories[j - |users|];
        LessIrreflexive(defs[i]);
      }
    }
  }

  lemma UserBlockLines(items: seq<Item>)
    ensures forall i :: 0 <= i < |UserBlock(items)| ==> IsUserLine(UserBlock(items)[i])
  {
    var users := UserBlock(items);
    forall i | 0 <= i < |users| ensures IsUserLine(users[i]) {
      assert users[i] in users;
      var k :| 0 <= k < |items| && users[i] == UserDefinition(items[k]);
    }
  }

  lemma RepositoryBlockLines(items: seq<Item>)
    requires forall i :: 0 <= i < |items| ==>
      |items[i].repositoryName| == 0 || items[i].repositoryName[0] != '@'
    ensures forall i :: 0 <= i < |RepositoryBlock(items)| ==> !IsUserLine(RepositoryBlock(items)[i])
  {
    var repositories := RepositoryBlock(items);
    forall i | 0 <= i < |repositories| ensures !IsUserLine(repositories[i]) {
      assert repositories[i] in repositories;
      var k :| 0 <= k < |items| && repositories[i] == RepositoryDefinition(items[k]);
      RepositoryDefinitionIsNotUserLine(items[k]);
    }
  }

  /** `Vec::from_iter(set)` followed by `sort()`: the set's elements, ascending, picked
      out of the set in whatever order it yields them. */
  method SortedStrings(s: set<string>) returns (r: seq<string>)
    ensures StrictlySorted(r)
    ensures forall y :: y in r <==> y in s
  {
    r := [];
    var rest := s;
    while rest != {}
      invariant rest <= s
      invariant StrictlySorted(r)
      invariant forall y :: y in r <==> y in s && y !in rest
      decreases |rest|
    {
      var x :| x in rest;
      r := InsertUnique(r, x);
      rest := rest - {x};
    }
  }

  /** `extract_definitions`: the definitions of every item go into two sets, which are
      then sorted and appended users first. */
  method ExtractDefinitions(items: seq<Item>) returns (definitions: seq<string>)
    ensures definitions == Definitions(items)
  {
    var uniqueUsers: set<string> := {};
    var uniqueRepositories: set<string> := {};
    for i := 0 to |items|
      invariant forall y :: y in uniqueUsers <==> exists k :: 0 <= k < i && y == UserDefinition(items[k])
      invariant forall y :: y in uniqueRepositories <==> exists k :: 0 <= k < i && y == RepositoryDefinition(items[k])
    {
      uniqueUsers := uniqueUsers + {UserDefinition(items[i])};
      uniqueRepositories := uniqueRepositories + {RepositoryDefinition(items[i])};
    }
    var users := SortedStrings(uniqueUsers);
    var repositories := SortedStrings(uniqueRepositories);
    StrictlySortedUnique(users, UserBlock(items));
    StrictlySortedUnique(repositories, RepositoryBlock(items));
    definitions := users + repositories;
  }
}
