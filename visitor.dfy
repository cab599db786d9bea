/**
 The visitor that a directory walk drives, and the entities it keeps in its
 map. Entities are objects: the visitor changes their totals and path lists
 in place, and the summary entity is the very object stored under the
 reserved key. Each method is proved to change the map's value exactly as
 Model.Record or Model.Filter says.
 */
module Visitor {
  import opened Model

  /** What a walk callback tells the walker to do next. */
  datatype VisitResult = Continue | Terminate

  /** One group of same-named files, or the summary. */
  class DuplicateEntity {
    var shortName: string
    var paths: seq<FilePath>
    var overallSize: nat

    constructor (shortName: string)
      ensures this.shortName == shortName && paths == [] && overallSize == 0
    {
      this.shortName := shortName;
      paths := [];
      overallSize := 0;
    }

    /** The number of paths the entity holds. */
    function Size(): (n: nat)
      reads this
      ensures n == |Value().paths|
    {
      |paths|
    }

    /** The entity as a value. */
    function Value(): Group
      reads this
    {
      Group(shortName, paths, overallSize)
    }
  }

  /** The value of a map of entities. */
  ghost function TableOf(m: map<string, DuplicateEntity>): Table
    reads m.Values
  {
    map k | k in m :: m[k].Value()
  }

  class DuplicateVisitor {
    /** The summary entity; it is also the value under the reserved key. */
    const summary: DuplicateEntity
    var duplicationsMap: map<string, DuplicateEntity>
    /** The map's value: the value of each entity under its key. */
    ghost var Contents: Table
    /** The entities the visitor has created. */
    ghost var Repr: set<DuplicateEntity>

    /**
     The summary sits under the reserved key, Contents is the map's value, and
     every entity is named after its key, so distinct keys hold distinct entities.
     */
    ghost predicate Valid()
      reads this, Repr
    {
      && ALL_SUMMARY_KEY in duplicationsMap
      && duplicationsMap[ALL_SUMMARY_KEY] == summary
      && duplicationsMap.Keys == Contents.Keys
      && WellFormed(Contents)
      && forall k :: k in duplicationsMap ==> duplicationsMap[k] in Repr && duplicationsMap[k].Value() == Contents[k]
    }

    /** A fresh visitor: the summary entity alone, under the reserved key, at zero. */
    constructor ()
      ensures Valid() && fresh(Repr)
      ensures Contents == Initial()
    {
      var s := new DuplicateEntity(ALL_SUMMARY_KEY);
      summary := s;
      duplicationsMap := map[ALL_SUMMARY_KEY := s];
      Contents := Initial();
      Repr := {s};
    }

    method PreVisitDirectory(dir: FilePath) returns (r: VisitResult)
      ensures r == Continue
    {
      r := Continue;
    }

    /** Records one regular file whose size was read as size. */
    method VisitFile(file: FilePath, size: nat) returns (r: VisitResult)
      requires Valid()
      modifies this, Repr
      ensures Valid() && fresh(Repr - old(Repr))
      ensures Contents == Record(old(Contents), file, size)
      ensures r == Continue
    {
      var shortName := BaseName(file);
      var entity := EntityFor(shortName);
      AddFile(entity, file, size);
      r := Continue;
    }

    /** The entity under name, created empty and stored under it when there is none. */
    method EntityFor(name: string) returns (entity: DuplicateEntity)
      requires Valid()
      modifies this
      ensures Valid() && fresh(Repr - old(Repr)) && old(Repr) <= Repr
      ensures name in duplicationsMap && duplicationsMap[name] == entity
      ensures Contents == WithEntry(old(Contents), name)
    {
      if name in duplicationsMap {
        entity := duplicationsMap[name];
      } else {
        entity := new DuplicateEntity(name);
        duplicationsMap := duplicationsMap[name := entity];
        entity.shortName := name;
        Repr := Repr + {entity};
        Contents := Contents[name := entity.Value()];
      }
    }

    /** Adds the size to the entity and to the summary, then appends the path to the entity. */
    method AddFile(entity: DuplicateEntity, file: FilePath, size: nat)
      requires Valid()
      requires BaseName(file) in duplicationsMap && duplicationsMap[BaseName(file)] == entity
      modifies Repr, `Contents
      ensures Valid() && unchanged(this`Repr, this`duplicationsMap)
      ensures Contents == Bump(old(Contents), BaseName(file), file, size)
    {
      ghost var k := BaseName(file);
      ghost var c := Bump(Contents, k, file, size);
      assert forall j :: j in duplicationsMap && j != k && j != ALL_SUMMARY_KEY ==>
        duplicationsMap[j] != entity && duplicationsMap[j] != summary && duplicationsMap[j].Value() == c[j];
      entity.overallSize := entity.overallSize + size;
      summary.overallSize := summary.overallSize + size;
      entity.paths := entity.paths + [file];
      assert entity.Value() == c[k];
      assert summary.Value() == c[ALL_SUMMARY_KEY];
      Contents := c;
    }

    method VisitFileFailed(file: FilePath) returns (r: VisitResult)
      ensures r == Continue
    {
      r := Continue;
    }

    method PostVisitDirectory(dir: FilePath) returns (r: VisitResult)
      ensures r == Continue
    {
      r := Continue;
    }

    /** Removes, key by key in unspecified order, every entry other than the summary with fewer than two paths. */
    method RemoveNonDuplicates()
      requires Valid()
      modifies this
      ensures Valid() && Repr == old(Repr)
      ensures Contents == Filter(old(Contents))
    {
      ghost var m0, c0 := duplicationsMap, Contents;
      ghost var kept := Filter(c0);
      var fileNames := duplicationsMap.Keys;
      while fileNames != {}
        modifies this`duplicationsMap
        invariant fileNames <= m0.Keys && duplicationsMap.Keys <= m0.Keys
        invariant forall k :: k in duplicationsMap ==> duplicationsMap[k] == m0[k]
        invariant forall k :: k in m0 ==> (k in duplicationsMap <==> k in fileNames || k in kept)
        decreases fileNames
      {
        var fileName :| fileName in fileNames;
        var entity := duplicationsMap[fileName];
        assert entity.Value() == c0[fileName];
        if entity != summary && entity.Size() < 2 {
          duplicationsMap := duplicationsMap - {fileName};
        }
        fileNames := fileNames - {fileName};
      }
      Contents := kept;
    }

    /**
     The visitor's map of entities. Dafny maps are values, so later changes
     to the returned map do not reach the visitor; the entities are shared.
     */
    method GetDuplications() returns (m: map<string, DuplicateEntity>)
      requires Valid()
      ensures m == duplicationsMap
      ensures TableOf(m) == Contents && m[ALL_SUMMARY_KEY] == summary
    {
      m := duplicationsMap;
    }
  }
}
