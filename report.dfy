/**
 The report written after the scan: a header with the scanned total, then,
 for every duplicate group in order, one line per member path and a blank
 line. A line here is the text written between two newlines. The rendering
 of a byte total in kibibytes and the last-modified stamp of a path come
 from outside the model and are parameters.
 */
module Report {
  import opened Model

  /** The delimiter written after every field of a member line. */
  const SEPARATOR: string := " , "

  /**
   The first line: the summary total, rendered by kb, is exactly the text
   between the fixed opening and closing words.
   */
  function HeaderLine(summaryTotal: nat, kb: nat -> string): (h: string)
    ensures |h| == 10 + |kb(summaryTotal)| + 26
    ensures h[..10] == "Total of [" && h[|h| - 26..] == "] Kb of files were scanned"
    ensures h[10..|h| - 26] == kb(summaryTotal)
  {
    "Total of [" + kb(summaryTotal) + "] Kb of files were scanned"
  }

  /**
   One member line: group total, group name, stamp and path, each followed
   by the delimiter. It opens with the total and the name and closes with
   the rendered path and a delimiter.
   */
  function MemberLine(g: Group, p: FilePath, kb: nat -> string, stamp: FilePath -> string): (ml: string)
    ensures var front := kb(g.total) + SEPARATOR + g.name + SEPARATOR;
      |front| <= |ml| && ml[..|front|] == front
    ensures var back := PathString(p) + SEPARATOR;
      |back| <= |ml| && ml[|ml| - |back|..] == back
  {
    kb(g.total) + SEPARATOR + g.name + SEPARATOR + stamp(p) + SEPARATOR + PathString(p) + SEPARATOR
  }

  /** The member lines of group g for the paths ps, in order. */
  function MemberLines(g: Group, ps: seq<FilePath>, kb: nat -> string, stamp: FilePath -> string): (ls: seq<string>)
    ensures |ls| == |ps|
    ensures forall j :: 0 <= j < |ps| ==> ls[j] == MemberLine(g, ps[j], kb, stamp)
  {
    if ps == [] then [] else MemberLines(g, ps[..|ps| - 1], kb, stamp) + [MemberLine(g, ps[|ps| - 1], kb, stamp)]
  }

  /** The lines of one group: a line per member path, then a blank line. */
  function GroupLines(g: Group, kb: nat -> string, stamp: FilePath -> string): (ls: seq<string>)
    ensures |ls| == |g.paths| + 1 && ls[|g.paths|] == ""
    ensures forall j :: 0 <= j < |g.paths| ==> ls[j] == MemberLine(g, g.paths[j], kb, stamp)
  {
    MemberLines(g, g.paths, kb, stamp) + [""]
  }

  /**
   The whole report: the header, then the lines of the groups in the order
   given. It opens with the header and, when there is a group, closes with
   a blank line.
   */
  function ReportLines(summaryTotal: nat, gs: seq<Group>, kb: nat -> string, stamp: FilePath -> string): (ls: seq<string>)
    ensures |ls| >= 1 && ls[0] == HeaderLine(summaryTotal, kb)
    ensures gs != [] ==> ls[|ls| - 1] == ""
  {
    if gs == [] then [HeaderLine(summaryTotal, kb)]
    else ReportLines(summaryTotal, gs[..|gs| - 1], kb, stamp) + GroupLines(gs[|gs| - 1], kb, stamp)
  }

  /** The number of lines the groups gs take: one per member path and one blank line each. */
  function LineCount(gs: seq<Group>): nat
  {
    if gs == [] then 0 else LineCount(gs[..|gs| - 1]) + |gs[|gs| - 1].paths| + 1
  }

  /** Writes the report line by line: the header, then the lines of each group in turn. */
  method WriteReport(summaryTotal: nat, gs: seq<Group>, kb: nat -> string, stamp: FilePath -> string)
    returns (lines: seq<string>)
    ensures lines == ReportLines(summaryTotal, gs, kb, stamp)
  {
    lines := [HeaderLine(summaryTotal, kb)];
    var i := 0;
    while i < |gs|
      invariant 0 <= i <= |gs|
      invariant lines == ReportLines(summaryTotal, gs[..i], kb, stamp)
    {
      var groupLines := WriteGroup(gs[i], kb, stamp);
      lines := lines + groupLines;
      assert lines == ReportLines(summaryTotal, gs[..i + 1], kb, stamp) by {
        ReportLinesAppend(summaryTotal, gs[..i], gs[i], kb, stamp);
        TakeOneMore(gs, i);
      }
      i := i + 1;
    }
    assert gs[..i] == gs;
  }

  /** Writes the lines of one group: a line per member path, in order, then a blank line. */
  method WriteGroup(g: Group, kb: nat -> string, stamp: FilePath -> string) returns (lines: seq<string>)
    ensures lines == GroupLines(g, kb, stamp)
  {
    lines := [];
    var j := 0;
    while j < |g.paths|
      invariant 0 <= j <= |g.paths|
      invariant lines == MemberLines(g, g.paths[..j], kb, stamp)
    {
      lines := lines + [MemberLine(g, g.paths[j], kb, stamp)];
      assert lines == MemberLines(g, g.paths[..j + 1], kb, stamp) by {
        MemberLinesAppend(g, g.paths[..j], g.paths[j], kb, stamp);
        TakeOneMore(g.paths, j);
      }
      j := j + 1;
    }
    assert g.paths[..j] == g.paths;
    lines := lines + [""];
  }

  /** The member lines for ps + [p] are those for ps and then the line of p. */
  lemma MemberLinesAppend(g: Group, ps: seq<FilePath>, p: FilePath, kb: nat -> string, stamp: FilePath -> string)
    ensures MemberLines(g, ps + [p], kb, stamp) == MemberLines(g, ps, kb, stamp) + [MemberLine(g, p, kb, stamp)]
  {
    assert (ps + [p])[..|ps|] == ps;
  }

  /** The report for gs + [g] is the report for gs followed by the lines of g. */
  lemma ReportLinesAppend(summaryTotal: nat, gs: seq<Group>, g: Group, kb: nat -> string, stamp: FilePath -> string)
    ensures ReportLines(summaryTotal, gs + [g], kb, stamp) == ReportLines(summaryTotal, gs, kb, stamp) + GroupLines(g, kb, stamp)
    ensures LineCount(gs + [g]) == LineCount(gs) + |g.paths| + 1
  {
    assert (gs + [g])[..|gs|] == gs;
  }

  /** A report has one header line, then one line per member path and one blank line per group. */
  lemma {:induction false} ReportLength(summaryTotal: nat, gs: seq<Group>, kb: nat -> string, stamp: FilePath -> string)
    ensures |ReportLines(summaryTotal, gs, kb, stamp)| == 1 + LineCount(gs)
    ensures ReportLines(summaryTotal, gs, kb, stamp)[0] == HeaderLine(summaryTotal, kb)
  {
    if gs != [] {
      ReportLength(summaryTotal, gs[..|gs| - 1], kb, stamp);
    }
  }

  /**
   The lines of group i start on line 1 + LineCount(gs[..i]): its member
   lines in path order, then the blank line.
   */
  lemma {:induction false} ReportLineAt(summaryTotal: nat, gs: seq<Group>, i: nat, kb: nat -> string, stamp: FilePath -> string)
    requires i < |gs|
    ensures var lines, start := ReportLines(summaryTotal, gs, kb, stamp), 1 + LineCount(gs[..i]);
      && start + |gs[i].paths| < |lines|
      && lines[start..start + |gs[i].paths| + 1] == GroupLines(gs[i], kb, stamp)
  {
    var pre, group := ReportLines(summaryTotal, gs[..i], kb, stamp), GroupLines(gs[i], kb, stamp);
    var lines := ReportLines(summaryTotal, gs, kb, stamp);
    assert pre + group <= lines by {
      ReportPrefix(summaryTotal, gs, i + 1, kb, stamp);
      TakeOneMore(gs, i);
      ReportLinesAppend(summaryTotal, gs[..i], gs[i], kb, stamp);
    }
    assert |pre| == 1 + LineCount(gs[..i]) by {
      ReportLength(summaryTotal, gs[..i], kb, stamp);
    }
    PrefixSlice(pre, group, lines);
  }

  /** The report for the first k groups is a prefix of the report for all of them. */
  lemma {:induction false} ReportPrefix(summaryTotal: nat, gs: seq<Group>, k: nat, kb: nat -> string, stamp: FilePath -> string)
    requires k <= |gs|
    ensures ReportLines(summaryTotal, gs[..k], kb, stamp) <= ReportLines(summaryTotal, gs, kb, stamp)
  {
    if k < |gs| {
      var init := gs[..|gs| - 1];
      assert gs[..k] == init[..k];
      ReportPrefix(summaryTotal, init, k, kb, stamp);
    } else {
      assert gs[..k] == gs;
    }
  }

  /** The first i + 1 elements are the first i and then element i. */
  lemma TakeOneMore<T>(s: seq<T>, i: nat)
    requires i < |s|
    ensures s[..i + 1] == s[..i] + [s[i]]
  {
  }

  /** When a + b is a prefix of c, the slice of c after a is b. */
  lemma PrefixSlice<T>(a: seq<T>, b: seq<T>, c: seq<T>)
    requires a + b <= c
    ensures |a| + |b| <= |c| && c[|a|..|a| + |b|] == b
  {
    assert c[..|a| + |b|] == a + b;
  }

  /** Ordered by total, largest first. */
  ghost predicate SortedDesc(s: seq<Group>)
  {
    forall p, q :: 0 <= p < q < |s| ==> s[p].total >= s[q].total
  }

  /** Exchanges two elements of a, leaving the others in place. */
  method Swap(a: array<Group>, i: int, j: int)
    requires 0 <= i < a.Length && 0 <= j < a.Length
    modifies a
    ensures a[i] == old(a[j]) && a[j] == old(a[i])
    ensures forall m :: 0 <= m < a.Length && m != i && m != j ==> a[m] == old(a[m])
    ensures multiset(a[..]) == multiset(old(a[..]))
  {
    a[i], a[j] := a[j], a[i];
  }

  /**
   Sorts the groups by total, largest first, by insertion with adjacent
   swaps; equal totals are never swapped.
   */
  method SortBySizeDescending(a: array<Group>)
    modifies a
    ensures SortedDesc(a[..])
    ensures multiset(a[..]) == multiset(old(a[..]))
  {
    var i := 0;
    while i < a.Length
      invariant 0 <= i <= a.Length
      invariant forall p, q :: 0 <= p < q < i ==> a[p].total >= a[q].total
      invariant multiset(a[..]) == multiset(old(a[..]))
    {
      var j := i;
      while j > 0 && a[j - 1].total < a[j].total
        invariant 0 <= j <= i
        invariant forall p, q :: 0 <= p < q <= i && q != j ==> a[p].total >= a[q].total
        invariant multiset(a[..]) == multiset(old(a[..]))
      {
        Swap(a, j - 1, j);
        j := j - 1;
      }
      i := i + 1;
    }
  }
}
