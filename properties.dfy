/**
 What a whole walk leaves in the table: every group is exactly the visited
 files of its base name, in visit order, with their summed size, and the
 summary entry holds the size of every visited file. These hold when no
 visited file carries the reserved summary key as its name; the last
 lemmas show what happens when one does.
 */
module Properties {
  import opened Model

  /** A prefix of the events yields a prefix of the visits. */
  lemma VisitsStep(es: seq<Event>)
    requires es != []
    ensures Visits(es) == Visits(es[..|es| - 1]) + (if es[|es| - 1].FileVisited? then [FileRecord(es[|es| - 1].file, es[|es| - 1].size)] else [])
  {
  }

  /** The last record of rs + [r] is r, and the records before it are rs. */
  lemma SplitLast(rs: seq<FileRecord>, r: FileRecord)
    ensures (rs + [r])[..|rs + [r]| - 1] == rs
    ensures (rs + [r])[|rs + [r]| - 1] == r
  {
  }

  /** Adding one record adds its base name. */
  lemma BaseNamesAppend(rs: seq<FileRecord>, r: FileRecord)
    ensures BaseNames(rs + [r]) == BaseNames(rs) + {BaseName(r.path)}
  {
    var both := rs + [r];
    forall x | x in BaseNames(both) ensures x in BaseNames(rs) + {BaseName(r.path)} {
      var q :| q in both && BaseName(q.path) == x;
      if q != r { assert q in rs; }
    }
    forall x | x in BaseNames(rs) + {BaseName(r.path)} ensures x in BaseNames(both) {
      if x in BaseNames(rs) {
        var q :| q in rs && BaseName(q.path) == x;
        assert q in both;
      } else {
        assert r in both;
      }
    }
  }

  /** A name no record carries selects nothing. */
  lemma {:induction false} MatchingOutside(rs: seq<FileRecord>, k: string)
    requires k !in BaseNames(rs)
    ensures Matching(rs, k) == []
  {
    if rs != [] {
      var init, last := rs[..|rs| - 1], rs[|rs| - 1];
      assert rs == init + [last];
      BaseNamesAppend(init, last);
      MatchingOutside(init, k);
    }
  }

  /** The records selected by name k, one record more. */
  lemma MatchingAppend(rs: seq<FileRecord>, r: FileRecord, k: string)
    ensures Matching(rs + [r], k) == Matching(rs, k) + if BaseName(r.path) == k then [r] else []
    ensures PathsOf(rs + [r]) == PathsOf(rs) + [r.path]
    ensures SizeSum(rs + [r]) == SizeSum(rs) + r.size
  {
    SplitLast(rs, r);
  }

  /** The paths selected by name k are exactly the visited paths with that base name. */
  lemma {:induction false} MatchingPaths(rs: seq<FileRecord>, k: string, p: FilePath)
    ensures p in PathsOf(Matching(rs, k)) <==> p in PathsOf(rs) && BaseName(p) == k
  {
    if rs != [] {
      var init, last := rs[..|rs| - 1], rs[|rs| - 1];
      assert rs == init + [last];
      MatchingAppend(init, last, k);
      MatchingPaths(init, k, p);
      var sel := Matching(init, k);
      assert PathsOf(rs) == PathsOf(init) + [last.path];
      if BaseName(last.path) == k {
        MatchingAppend(sel, last, k);
        assert Matching(rs, k) == sel + [last];
        assert PathsOf(Matching(rs, k)) == PathsOf(sel) + [last.path];
      } else {
        assert Matching(rs, k) == sel;
      }
    }
  }

  /** The table after any walk is characterised by its visits alone. */
  lemma {:induction false} RunCharacterized(es: seq<Event>)
    requires NoCollision(es)
    ensures Characterizes(Run(es), Visits(es))
  {
    if es == [] {
      assert BaseNames([]) == {};
    } else {
      var init, e := es[..|es| - 1], es[|es| - 1];
      var t, vs := Run(init), Visits(init);
      VisitsStep(es);
      assert NoCollision(init) by {
        forall r | r in vs ensures BaseName(r.path) != ALL_SUMMARY_KEY {
          assert r in Visits(es);
        }
      }
      RunCharacterized(init);
      if e.FileVisited? {
        assert Run(es) == Record(t, e.file, e.size);
        assert Visits(es) == vs + [FileRecord(e.file, e.size)];
        assert FileRecord(e.file, e.size) in Visits(es);
        RecordStep(t, vs, e.file, e.size);
      } else {
        assert Run(es) == t && Visits(es) == vs;
      }
    }
  }

  /**
   A table characterised by the visits behind it: the keys are the summary
   key and the visited base names; each group holds the visited paths of its
   name in visit order and their summed size; the summary holds no path and
   the size of every visited file.
   */
  ghost predicate Characterizes(t: Table, vs: seq<FileRecord>)
  {
    && t.Keys == {ALL_SUMMARY_KEY} + BaseNames(vs)
    && t[ALL_SUMMARY_KEY] == Group(ALL_SUMMARY_KEY, [], SizeSum(vs))
    && forall k :: k in t && k != ALL_SUMMARY_KEY ==> t[k] == Group(k, PathsOf(Matching(vs, k)), SizeSum(Matching(vs, k)))
  }

  /** One recorded file keeps the characterisation. */
  lemma RecordStep(t: Table, vs: seq<FileRecord>, file: FilePath, size: nat)
    requires BaseName(file) != ALL_SUMMARY_KEY
    requires WellFormed(t) && Characterizes(t, vs)
    ensures Characterizes(Record(t, file, size), vs + [FileRecord(file, size)])
  {
    var rec := FileRecord(file, size);
    var r, vs' := Record(t, file, size), vs + [rec];
    assert r.Keys == {ALL_SUMMARY_KEY} + BaseNames(vs') by {
      BaseNamesAppend(vs, rec);
    }
    assert r[ALL_SUMMARY_KEY] == Group(ALL_SUMMARY_KEY, [], SizeSum(vs')) by {
      MatchingAppend(vs, rec, ALL_SUMMARY_KEY);
    }
    forall k | k in r && k != ALL_SUMMARY_KEY
      ensures r[k] == Group(k, PathsOf(Matching(vs', k)), SizeSum(Matching(vs', k)))
    {
      RecordStepAt(t, vs, file, size, k);
    }
  }

  /** RecordStep at one key, from the characterisation at that key alone. */
  lemma RecordStepAt(t: Table, vs: seq<FileRecord>, file: FilePath, size: nat, k: string)
    requires BaseName(file) != ALL_SUMMARY_KEY && WellFormed(t)
    requires k != ALL_SUMMARY_KEY && (k in t <==> k in BaseNames(vs))
    requires k in t ==> t[k] == Group(k, PathsOf(Matching(vs, k)), SizeSum(Matching(vs, k)))
    requires k in Record(t, file, size)
    ensures var vs' := vs + [FileRecord(file, size)];
      Record(t, file, size)[k] == Group(k, PathsOf(Matching(vs', k)), SizeSum(Matching(vs', k)))
  {
    var rec := FileRecord(file, size);
    var r, vs' := Record(t, file, size), vs + [rec];
    var sel := Matching(vs, k);
    MatchingAppend(vs, rec, k);
    var now := Matching(vs', k);
    if k != BaseName(file) {
      assert now == sel;
      assert r[k] == t[k];
    } else if k in t {
      MatchingAppend(sel, rec, k);
      assert now == sel + [rec];
      assert PathsOf(now) == PathsOf(sel) + [file];
      assert SizeSum(now) == SizeSum(sel) + size;
      assert r[k] == Group(k, PathsOf(sel) + [file], SizeSum(sel) + size);
    } else {
      MatchingOutside(vs, k);
      MatchingAppend([], rec, k);
      assert now == [rec];
      assert PathsOf(now) == [file] && SizeSum(now) == size;
      assert r[k] == Group(k, [file], size);
    }
  }

  /** The summary entry holds the size of every visited file, whatever the grouping. */
  lemma SummaryIsTotal(es: seq<Event>)
    requires NoCollision(es)
    ensures Run(es)[ALL_SUMMARY_KEY].total == SizeSum(Visits(es))
    ensures Run(es)[ALL_SUMMARY_KEY].paths == []
  {
    RunCharacterized(es);
  }

  /** Each group's total is the summed size of the files it lists. */
  lemma GroupTotalIsSumOfMembers(es: seq<Event>, k: string)
    requires NoCollision(es)
    requires k in Run(es) && k != ALL_SUMMARY_KEY
    ensures Run(es)[k].paths == PathsOf(Matching(Visits(es), k))
    ensures Run(es)[k].total == SizeSum(Matching(Visits(es), k))
  {
    RunCharacterized(es);
  }

  /**
   Every visited path sits in the group of its own base name and in no
   other group; a non-visited path sits in none.
   */
  lemma PathInExactlyOneGroup(es: seq<Event>, p: FilePath)
    requires NoCollision(es)
    ensures forall k :: k in Run(es) && p in Run(es)[k].paths ==> k == BaseName(p) && p in PathsOf(Visits(es))
    ensures p in PathsOf(Visits(es)) ==> BaseName(p) in Run(es) && p in Run(es)[BaseName(p)].paths
  {
    RunCharacterized(es);
    var vs := Visits(es);
    forall k | k in Run(es) && p in Run(es)[k].paths
      ensures k == BaseName(p) && p in PathsOf(vs)
    {
      MatchingPaths(vs, k, p);
    }
    if p in PathsOf(vs) {
      var i :| 0 <= i < |vs| && PathsOf(vs)[i] == p;
      assert vs[i] in vs;
      assert BaseName(p) in BaseNames(vs);
      MatchingPaths(vs, BaseName(p), p);
    }
  }

  /** The filter leaves, besides the summary, exactly the names visited at least twice. */
  lemma FilterKeepsRepeatedNames(es: seq<Event>, k: string)
    requires NoCollision(es)
    requires k != ALL_SUMMARY_KEY
    ensures k in Filter(Run(es)) <==> |Matching(Visits(es), k)| >= 2
    ensures k in Filter(Run(es)) ==> Filter(Run(es))[k] == Run(es)[k]
  {
    RunCharacterized(es);
    if k !in Run(es) {
      MatchingOutside(Visits(es), k);
    }
  }

  /** A file named like the reserved key is added to the summary's size twice and to its paths. */
  lemma SentinelCollision(t: Table, file: FilePath, size: nat)
    requires WellFormed(t)
    requires BaseName(file) == ALL_SUMMARY_KEY
    ensures Record(t, file, size)[ALL_SUMMARY_KEY].total == t[ALL_SUMMARY_KEY].total + 2 * size
    ensures Record(t, file, size)[ALL_SUMMARY_KEY].paths == t[ALL_SUMMARY_KEY].paths + [file]
  {
  }

  /** A one-file walk whose file is named like the reserved key reports twice the scanned size. */
  lemma SentinelCollisionWalk()
    ensures var es := [FileVisited(["data", ALL_SUMMARY_KEY], 10)];
      SizeSum(Visits(es)) == 10 && Run(es)[ALL_SUMMARY_KEY].total == 20
  {
    var es := [FileVisited(["data", ALL_SUMMARY_KEY], 10)];
    assert es[..0] == [];
    assert Visits(es) == [FileRecord(["data", ALL_SUMMARY_KEY], 10)];
    SizeSumOne(FileRecord(["data", ALL_SUMMARY_KEY], 10));
  }

  /** A single record sums to its own size. */
  lemma SizeSumOne(r: FileRecord)
    ensures SizeSum([r]) == r.size
  {
    assert [r][..0] == [];
  }
}
