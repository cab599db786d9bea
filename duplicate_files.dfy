/**
 The program's two top-level steps: the walk that feeds the visitor and
 filters its map, and the report built from the result: the summary
 detached, the remaining groups listed and sorted by total, largest first,
 and the report lines written. A walk is given as the sequence of callbacks
 the file-tree walker makes.
 */
module DuplicateFiles {
  import opened Model
  import opened Visitor
  import opened Report
  import Properties

  /**
   Drives a fresh visitor through the walk, stopping early if a callback
   answers Terminate, then drops the names seen fewer than twice and
   returns the visitor's map.
   */
  method CalculateDuplicateFiles(events: seq<Event>) returns (duplications: map<string, DuplicateEntity>)
    ensures TableOf(duplications) == Filter(Run(events))
  {
    var visitor := new DuplicateVisitor();
    var i := 0;
    var r := Continue;
    while i < |events| && r == Continue
      invariant 0 <= i <= |events| && r == Continue
      invariant visitor.Valid() && fresh(visitor.Repr)
      invariant visitor.Contents == Run(events[..i])
      decreases |events| - i
    {
      r := Deliver(visitor, events[i]);
      RunPrefix(events, i);
      assert visitor.Contents == Run(events[..i + 1]);
      i := i + 1;
    }
    assert events[..i] == events;
    visitor.RemoveNonDuplicates();
    duplications := visitor.GetDuplications();
  }

  /** The walker makes one callback: the visitor method that matches the event. */
  method Deliver(visitor: DuplicateVisitor, e: Event) returns (r: VisitResult)
    requires visitor.Valid()
    modifies visitor, visitor.Repr
    ensures visitor.Valid() && fresh(visitor.Repr - old(visitor.Repr))
    ensures visitor.Contents == Apply(old(visitor.Contents), e)
    ensures r == Continue
  {
    match e {
      case DirEntered(dir) => r := visitor.PreVisitDirectory(dir);
      case FileVisited(file, size) => r := visitor.VisitFile(file, size);
      case FileFailed(file) => r := visitor.VisitFileFailed(file);
      case DirLeft(dir) => r := visitor.PostVisitDirectory(dir);
    }
  }

  /** One more callback of the walk applies to the table of the walk so far. */
  lemma RunPrefix(es: seq<Event>, i: nat)
    requires i < |es|
    ensures Run(es[..i + 1]) == Apply(Run(es[..i]), es[i])
  {
    assert es[..i + 1][..i] == es[..i];
  }

  /** The groups of a table other than the summary entry. */
  ghost function DuplicateGroups(t: Table): set<Group>
  {
    set k | k in t && k != ALL_SUMMARY_KEY :: t[k]
  }

  /** The groups of t under the keys ks. */
  ghost function GroupsUnder(t: Table, ks: set<string>): set<Group>
  {
    set k | k in ks && k in t :: t[k]
  }

  /**
   The whole run: the walk, then the summary taken out of the map, the
   remaining groups listed in the map's order and sorted by total, largest
   first, and the report written from the summary total and that list.
   */
  method ReportDuplicates(events: seq<Event>, kb: nat -> string, stamp: FilePath -> string)
    returns (lines: seq<string>, list: seq<Group>)
    ensures SortedDesc(list)
    ensures multiset(list) == multiset(DuplicateGroups(Filter(Run(events))))
    ensures lines == ReportLines(Run(events)[ALL_SUMMARY_KEY].total, list, kb, stamp)
  {
    var duplications := CalculateDuplicateFiles(events);
    ghost var t := Filter(Run(events));
    var summary := duplications[ALL_SUMMARY_KEY];
    duplications := duplications - {ALL_SUMMARY_KEY};
    var values := ValuesOf(duplications, t);
    assert GroupsUnder(t, duplications.Keys) == DuplicateGroups(t);
    var a := new Group[|values|](i requires 0 <= i < |values| => values[i]);
    assert a[..] == values;
    SortBySizeDescending(a);
    list := a[..];
    lines := WriteReport(summary.overallSize, list, kb, stamp);
  }

  /**
   The values of the map m, one per key, in an unspecified order, as the
   groups they are; t is the table m stands for.
   */
  method ValuesOf(m: map<string, DuplicateEntity>, ghost t: Table) returns (values: seq<Group>)
    requires WellFormed(t) && m.Keys <= t.Keys
    requires forall k :: k in m ==> m[k].Value() == t[k]
    ensures multiset(values) == multiset(GroupsUnder(t, m.Keys))
  {
    values := [];
    var rest := m;
    ghost var done: set<string> := {};
    while rest != map[]
      invariant rest.Keys !! done && rest.Keys + done == m.Keys
      invariant forall k :: k in rest ==> rest[k] == m[k]
      invariant multiset(values) == multiset(GroupsUnder(t, done))
      decreases |rest|
    {
      var k :| k in rest;
      var g := rest[k].Value();
      GroupsUnderStep(t, done, k);
      values := values + [g];
      rest := rest - {k};
      done := done + {k};
    }
  }

  /** One key more adds its group, which no other key of a well-formed table holds. */
  lemma GroupsUnderStep(t: Table, ks: set<string>, k: string)
    requires WellFormed(t) && k in t && k !in ks
    ensures t[k] !in GroupsUnder(t, ks)
    ensures multiset(GroupsUnder(t, ks + {k})) == multiset(GroupsUnder(t, ks)) + multiset{t[k]}
  {
    assert GroupsUnder(t, ks + {k}) == GroupsUnder(t, ks) + {t[k]};
  }

  /**
   Every group the report lists holds at least two paths, all the visited
   paths of its name in visit order, and their summed size; no name is
   listed twice; the header carries the size of every visited file.
   */
  lemma ReportedGroups(es: seq<Event>, list: seq<Group>)
    requires NoCollision(es)
    requires multiset(list) == multiset(DuplicateGroups(Filter(Run(es))))
    ensures forall i :: 0 <= i < |list| ==>
      && list[i].name in Run(es) && list[i].name != ALL_SUMMARY_KEY
      && |list[i].paths| >= 2
      && list[i].paths == PathsOf(Matching(Visits(es), list[i].name))
      && list[i].total == SizeSum(Matching(Visits(es), list[i].name))
    ensures forall i, j :: 0 <= i < j < |list| ==> list[i].name != list[j].name
    ensures Run(es)[ALL_SUMMARY_KEY].total == SizeSum(Visits(es))
  {
    var t := Filter(Run(es));
    Properties.SummaryIsTotal(es);
    forall i | 0 <= i < |list|
      ensures && list[i].name in Run(es) && list[i].name != ALL_SUMMARY_KEY
              && |list[i].paths| >= 2
              && list[i].paths == PathsOf(Matching(Visits(es), list[i].name))
              && list[i].total == SizeSum(Matching(Visits(es), list[i].name))
    {
      assert list[i] in multiset(list);
      var k :| k in t && k != ALL_SUMMARY_KEY && t[k] == list[i];
      Properties.GroupTotalIsSumOfMembers(es, k);
    }
    forall i, j | 0 <= i < j < |list|
      ensures list[i].name != list[j].name
    {
      assert list[i] in multiset(list) && list[j] in multiset(list);
      if list[i].name == list[j].name {
        var k :| k in t && k != ALL_SUMMARY_KEY && t[k] == list[i];
        var k' :| k' in t && k' != ALL_SUMMARY_KEY && t[k'] == list[j];
        assert list[i] == list[j];
        TwiceCounted(list, i, j);
      }
    }
  }

  /** An element at two positions is counted at least twice. */
  lemma TwiceCounted(s: seq<Group>, i: nat, j: nat)
    requires i < j < |s| && s[i] == s[j]
    ensures multiset(s)[s[i]] >= 2
  {
    assert s == s[..j] + [s[j]] + s[j + 1..];
    assert s[i] in s[..j];
  }

  /** A walk that visits no file yields a report that is the header alone, with a zero total. */
  lemma EmptyScanReport(es: seq<Event>, list: seq<Group>, lines: seq<string>, kb: nat -> string, stamp: FilePath -> string)
    requires forall i :: 0 <= i < |es| ==> !es[i].FileVisited?
    requires multiset(list) == multiset(DuplicateGroups(Filter(Run(es))))
    requires lines == ReportLines(Run(es)[ALL_SUMMARY_KEY].total, list, kb, stamp)
    ensures lines == [HeaderLine(0, kb)]
  {
    UnvisitedRun(es);
    assert DuplicateGroups(Filter(Run(es))) == {};
    assert list == [];
  }

  /** Without a visited file, the table stays the initial one. */
  lemma {:induction false} UnvisitedRun(es: seq<Event>)
    requires forall i :: 0 <= i < |es| ==> !es[i].FileVisited?
    ensures Run(es) == Initial()
  {
    if es != [] {
      UnvisitedRun(es[..|es| - 1]);
    }
  }
}
