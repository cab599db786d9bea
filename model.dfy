/**
 The duplicate-file engine on plain values: file paths, the events of a
 directory walk, the groups keyed by base name, and the keyed table that
 the visitor keeps. The classes in module Visitor are proved to update
 their state exactly as the functions here say.
 */
module Model {

  /** The reserved key under which the summary entry lives in the table. */
  const ALL_SUMMARY_KEY: string := "ALL_SUMMARY_KEY"

  /** A path as its name segments, outermost directory first; the last segment is the file name. */
  type FilePath = s: seq<string> | |s| > 0 witness ["file"]

  /** The grouping key of a file: its name with extension, without the directory part. */
  function BaseName(p: FilePath): (k: string)
    ensures p == p[..|p| - 1] + [k]
  {
    p[|p| - 1]
  }

  /**
   A path rendered with '/' before every segment: a non-empty path's text
   starts with '/' and ends with '/' followed by its file name.
   */
  function PathString(p: seq<string>): (s: string)
    ensures p == [] <==> s == []
    ensures p != [] ==> s[0] == '/'
    ensures p != [] ==> |s| > |p[|p| - 1]| && s[|s| - |p[|p| - 1]| - 1..] == "/" + p[|p| - 1]
  {
    if p == [] then "" else PathString(p[..|p| - 1]) + "/" + p[|p| - 1]
  }

  /** One successfully visited regular file and the size read for it. */
  datatype FileRecord = FileRecord(path: FilePath, size: nat)

  /** The callbacks a directory walk makes, in the order it makes them. */
  datatype Event =
    | DirEntered(dir: FilePath)
    | FileVisited(file: FilePath, size: nat)
    | FileFailed(file: FilePath)
    | DirLeft(dir: FilePath)

  /** The value of one entity: its name, its paths in discovery order and its byte total. */
  datatype Group = Group(name: string, paths: seq<FilePath>, total: nat)

  /** The visitor's map from base name to entity, as values. */
  type Table = map<string, Group>

  /** The summary entry is present and every entry is named after its key. */
  ghost predicate WellFormed(t: Table)
  {
    && ALL_SUMMARY_KEY in t
    && forall k :: k in t ==> t[k].name == k
  }

  /** The table a fresh visitor starts with: the summary entry alone, empty and at zero. */
  function Initial(): (t: Table)
    ensures WellFormed(t)
    ensures t.Keys == {ALL_SUMMARY_KEY}
    ensures t[ALL_SUMMARY_KEY].paths == [] && t[ALL_SUMMARY_KEY].total == 0
  {
    map[ALL_SUMMARY_KEY := Group(ALL_SUMMARY_KEY, [], 0)]
  }

  /**
   Recording one visited file: look up (or create) the entry of its base
   name, add the size to it and to the summary entry, append the path.
   When the base name is the reserved key, the entry found is the summary
   itself, which then receives the size twice and the path.
   */
  function Record(t: Table, file: FilePath, size: nat): (r: Table)
    requires WellFormed(t)
    ensures WellFormed(r)
    ensures r.Keys == t.Keys + {BaseName(file)}
    ensures BaseName(file) !in t ==> r[BaseName(file)] == Group(BaseName(file), [file], size)
    ensures BaseName(file) in t && BaseName(file) != ALL_SUMMARY_KEY ==>
      r[BaseName(file)].paths == t[BaseName(file)].paths + [file] &&
      r[BaseName(file)].total == t[BaseName(file)].total + size
    ensures BaseName(file) != ALL_SUMMARY_KEY ==> r[ALL_SUMMARY_KEY] == t[ALL_SUMMARY_KEY].(total := t[ALL_SUMMARY_KEY].total + size)
    ensures forall k :: k in t && k != BaseName(file) && k != ALL_SUMMARY_KEY ==> r[k] == t[k]
  {
    Bump(WithEntry(t, BaseName(file)), BaseName(file), file, size)
  }

  /** The table with an entry under k: the existing one, or a new empty entity named k. */
  function WithEntry(t: Table, k: string): (r: Table)
    requires WellFormed(t)
    ensures WellFormed(r) && r.Keys == t.Keys + {k}
    ensures forall j :: j in t ==> r[j] == t[j]
    ensures k !in t ==> r[k].paths == [] && r[k].total == 0
  {
    if k in t then t else t[k := Group(k, [], 0)]
  }

  /**
   The three updates of one recorded file, in the order the visitor makes
   them: the size onto the entry under k, the size onto the summary entry,
   the path onto the entry under k.
   */
  function Bump(t: Table, k: string, file: FilePath, size: nat): (r: Table)
    requires WellFormed(t) && k in t
    ensures WellFormed(r) && r.Keys == t.Keys
    ensures k != ALL_SUMMARY_KEY ==>
      && r[k] == t[k].(paths := t[k].paths + [file], total := t[k].total + size)
      && r[ALL_SUMMARY_KEY] == t[ALL_SUMMARY_KEY].(total := t[ALL_SUMMARY_KEY].total + size)
    ensures k == ALL_SUMMARY_KEY ==>
      r[k] == t[k].(paths := t[k].paths + [file], total := t[k].total + 2 * size)
    ensures forall j :: j in t && j != k && j != ALL_SUMMARY_KEY ==> r[j] == t[j]
  {
    var t1 := t[k := t[k].(total := t[k].total + size)];
    var t2 := t1[ALL_SUMMARY_KEY := t1[ALL_SUMMARY_KEY].(total := t1[ALL_SUMMARY_KEY].total + size)];
    t2[k := t2[k].(paths := t2[k].paths + [file])]
  }

  /** One walk callback: only a visited file changes the table. */
  function Apply(t: Table, e: Event): (r: Table)
    requires WellFormed(t)
    ensures WellFormed(r)
    ensures !e.FileVisited? ==> r == t
  {
    match e
    case FileVisited(file, size) => Record(t, file, size)
    case _ => t
  }

  /** The table after a walk that made the callbacks es, starting from a fresh visitor. */
  function Run(es: seq<Event>): (t: Table)
    ensures WellFormed(t)
  {
    if es == [] then Initial() else Apply(Run(es[..|es| - 1]), es[|es| - 1])
  }

  /** The files a walk visited successfully, in visit order. */
  function Visits(es: seq<Event>): seq<FileRecord>
  {
    if es == [] then []
    else
      var e := es[|es| - 1];
      Visits(es[..|es| - 1]) + if e.FileVisited? then [FileRecord(e.file, e.size)] else []
  }

  /** The records whose base name is k, in their original order. */
  function Matching(rs: seq<FileRecord>, k: string): seq<FileRecord>
  {
    if rs == [] then []
    else
      var r := rs[|rs| - 1];
      Matching(rs[..|rs| - 1], k) + if BaseName(r.path) == k then [r] else []
  }

  /** The paths of the records, in order. */
  function PathsOf(rs: seq<FileRecord>): (ps: seq<FilePath>)
    ensures |ps| == |rs|
    ensures forall i :: 0 <= i < |rs| ==> ps[i] == rs[i].path
  {
    if rs == [] then [] else PathsOf(rs[..|rs| - 1]) + [rs[|rs| - 1].path]
  }

  /** The sum of the sizes of the records. */
  function SizeSum(rs: seq<FileRecord>): nat
  {
    if rs == [] then 0 else SizeSum(rs[..|rs| - 1]) + rs[|rs| - 1].size
  }

  /** The base names of the records. */
  function BaseNames(rs: seq<FileRecord>): set<string>
  {
    set r | r in rs :: BaseName(r.path)
  }

  /** No visited file is named like the reserved summary key. */
  ghost predicate NoCollision(es: seq<Event>)
  {
    forall r :: r in Visits(es) ==> BaseName(r.path) != ALL_SUMMARY_KEY
  }

  /** The filter that runs after the walk: the summary entry and the entries with at least two paths stay. */
  function Filter(t: Table): (r: Table)
    ensures r.Keys <= t.Keys
    ensures ALL_SUMMARY_KEY in t ==> ALL_SUMMARY_KEY in r
    ensures forall k :: k in r ==> r[k] == t[k]
    ensures forall k :: k in t && k != ALL_SUMMARY_KEY ==> (k in r <==> |t[k].paths| >= 2)
    ensures forall k :: k in r && k != ALL_SUMMARY_KEY ==> |r[k].paths| >= 2
    ensures WellFormed(t) ==> WellFormed(r)
  {
    map k | k in t && (k == ALL_SUMMARY_KEY || |t[k].paths| >= 2) :: t[k]
  }
}
