# Duplicate files by name: a Dafny model

This project models the duplicate-detection engine of `DuplicateFiles`, a
small Java program. The program walks a directory tree and groups every
regular file by its base name (the name with extension, without the
directory). It drops the names seen only once and writes a report of the
remaining groups, largest total first.

The model follows the program's own structure:

- `model.dfy` (module `Model`) holds the engine on plain values:
  - paths, as a non-empty sequence of name segments whose last segment is the base name;
  - the callbacks of a walk (`Event`);
  - a group (`Group`) and the keyed table of groups (`Table`);
  - `Record`, the change one visited file makes;
  - `Run`, the table after a whole walk;
  - `Filter`, the post-pass that drops singletons.
- `visitor.dfy` (module `Visitor`) holds the two classes of the source:
  - `DuplicateEntity`, whose name, path list and byte total are fields updated in place;
  - `DuplicateVisitor`, whose map from base name to entity is a field.

  Each visitor method is proved to change the map's value exactly as
  `Record` or `Filter` says. The summary entity is the very object stored
  under the reserved key `ALL_SUMMARY_KEY`, as in the source.
- `properties.dfy` (module `Properties`) characterises the table after any
  walk by the visited files alone. Every group holds exactly the visited
  paths of its name, in visit order, and its total is their summed size.
  The summary holds the size of every visited file. These hold when no
  visited file is itself named `ALL_SUMMARY_KEY`. Two further lemmas show
  what the code does when one is: the summary receives that file's size
  twice and its path.
- `report.dfy` (module `Report`) defines the report layout:
  - the header, then for each group one line per member path and a blank line;
  - the method that writes it with nested loops;
  - lemmas placing every line;
  - the in-place sort of the groups by total, largest first.
- `duplicate_files.dfy` (module `DuplicateFiles`) holds the top-level steps:
  - the walk driving a fresh visitor, then the filter;
  - `main`'s detach, list, sort and report steps;
  - end-to-end lemmas about what the report lists.

The file system is an input:

- A walk is the sequence of callbacks the file-tree walker makes. Visiting a
  file carries the size read for it.
- The kilobyte rendering of a byte total and the last-modified stamp of a
  path are function parameters (`kb`, `stamp`).
- A path is rendered by writing `/` before every segment.

## Model

| member | source | states |
|---|---|---|
| Model.BaseName | src/main/java/file/scanner/DuplicateFiles.java:94 | the grouping key is the path's last segment: the path is its directory part followed by the key |
| Model.PathString | src/main/java/file/scanner/DuplicateFiles.java:61 | the text of a path is empty only for no segment; otherwise it starts with '/' and ends with '/' followed by the file name |
| Model.Initial | src/main/java/file/scanner/DuplicateFiles.java:83-85 | a fresh visitor's table holds only the summary entry, with no path and a zero total |
| Model.Record | src/main/java/file/scanner/DuplicateFiles.java:93-105 | recording a file adds its base name as a key. An unseen name gets one new group holding just that path and size. A seen name (not the reserved key) gets the path appended and the size added. The summary total grows by the size. Every other entry is unchanged |
| Model.WithEntry | src/main/java/file/scanner/DuplicateFiles.java:96-101 | lookup-or-create adds the name to the keys, keeps every existing entry (the one found included) unchanged, gives a missing name a new entity with no path and a zero total, and keeps the table well formed |
| Model.Bump | src/main/java/file/scanner/DuplicateFiles.java:102-104 | the three updates leave the keys alone. For an ordinary name they add the size to its group and to the summary, and append the path. For the reserved name the summary gets the path and twice the size. Every other entry is unchanged |
| Model.Apply | src/main/java/file/scanner/DuplicateFiles.java:88-116 | only a visited file changes the table; directory callbacks and failed visits leave it exactly as it was |
| Model.Run | src/main/java/file/scanner/DuplicateFiles.java:73-74 | the table after any walk holds the summary entry, and every entry is named after its key |
| Model.Filter | src/main/java/file/scanner/DuplicateFiles.java:118-128 | the filter keeps the summary. It keeps a non-summary entry exactly when that entry has at least two paths. It never changes a kept entry, and afterwards every non-summary entry has at least two paths |
| Visitor.DuplicateEntity.constructor | src/main/java/file/scanner/DuplicateFiles.java:140-142 | a new entity has the given name, no paths and a zero total |
| Visitor.DuplicateEntity.Size | src/main/java/file/scanner/DuplicateFiles.java:144-146 | the size of an entity is the number of its paths |
| Visitor.DuplicateVisitor.constructor | src/main/java/file/scanner/DuplicateFiles.java:83-85 | a new visitor's map holds the summary entity alone, under the reserved key, at zero |
| Visitor.DuplicateVisitor.PreVisitDirectory | src/main/java/file/scanner/DuplicateFiles.java:88-90 | entering a directory changes nothing and the walk continues |
| Visitor.DuplicateVisitor.VisitFile | src/main/java/file/scanner/DuplicateFiles.java:93-106 | visiting a file changes the map's value exactly as Record says, keeps the visitor's invariant, creates entities only fresh, and the walk continues |
| Visitor.DuplicateVisitor.EntityFor | src/main/java/file/scanner/DuplicateFiles.java:96-101 | the entity returned is the one stored under the name, created empty when there was none; the map's value changes as WithEntry says |
| Visitor.DuplicateVisitor.AddFile | src/main/java/file/scanner/DuplicateFiles.java:102-104 | updating the entity and the summary entity in place changes the map's value exactly as Bump says; the map itself is untouched |
| Visitor.DuplicateVisitor.VisitFileFailed | src/main/java/file/scanner/DuplicateFiles.java:109-111 | a file whose attributes could not be read changes nothing and the walk continues |
| Visitor.DuplicateVisitor.PostVisitDirectory | src/main/java/file/scanner/DuplicateFiles.java:114-116 | leaving a directory changes nothing and the walk continues |
| Visitor.DuplicateVisitor.RemoveNonDuplicates | src/main/java/file/scanner/DuplicateFiles.java:118-128 | deleting entries during the key iteration, in whatever order the keys come, leaves the map's value equal to Filter of its old value |
| Visitor.DuplicateVisitor.GetDuplications | src/main/java/file/scanner/DuplicateFiles.java:130-132 | the result is the visitor's map, holding the visitor's own entities, its value is the visitor's table, and the summary entity sits under the reserved key |
| Properties.RunCharacterized | src/main/java/file/scanner/DuplicateFiles.java:93-105 | after any walk with no file named like the reserved key, the keys are the summary key plus the visited base names. Each group holds exactly the visited paths of its name, in visit order, and their summed size. The summary holds the size of every visited file |
| Properties.RecordStep | src/main/java/file/scanner/DuplicateFiles.java:96-104 | recording one more file keeps that characterisation, with the file appended to the visits |
| Properties.SummaryIsTotal | src/main/java/file/scanner/DuplicateFiles.java:102-103 | the summary total is the summed size of all visited files, whatever their grouping, and the summary holds no path |
| Properties.GroupTotalIsSumOfMembers | src/main/java/file/scanner/DuplicateFiles.java:102-104 | each group's paths are the visited files of its name in visit order, and its total is the sum of their sizes |
| Properties.PathInExactlyOneGroup | src/main/java/file/scanner/DuplicateFiles.java:94-104 | a path sits only in the group of its own base name, and only if it was visited; every visited path sits in that group |
| Properties.MatchingPaths | src/main/java/file/scanner/DuplicateFiles.java:94-104 | the paths selected by a name are exactly the visited paths whose base name is that name |
| Properties.FilterKeepsRepeatedNames | src/main/java/file/scanner/DuplicateFiles.java:118-128 | after the filter a name is still present exactly when at least two visited files carry it, and its group is unchanged |
| Properties.SentinelCollision | src/main/java/file/scanner/DuplicateFiles.java:96-104 | a file named like the reserved key lands in the summary entity, which receives its size twice and its path |
| Properties.SentinelCollisionWalk | src/main/java/file/scanner/DuplicateFiles.java:96-104 | a one-file walk over a 10-byte file named like the reserved key yields a summary of 20 bytes |
| Report.HeaderLine | src/main/java/file/scanner/DuplicateFiles.java:52 | the header is the fixed opening "Total of [", the summary total as rendered, and the fixed closing "] Kb of files were scanned"; the rendered total is exactly the text between them |
| Report.MemberLine | src/main/java/file/scanner/DuplicateFiles.java:55-63 | a member line opens with the group total and the group name, each followed by " , ", and closes with the rendered path followed by " , " |
| Report.ReportLines | src/main/java/file/scanner/DuplicateFiles.java:52-66 | the report opens with the header line, and when any group is listed it closes with a blank line |
| Report.GroupLines | src/main/java/file/scanner/DuplicateFiles.java:54-65 | a group takes one line per member path, in path order, each the member line for that path, then one blank line |
| Report.WriteGroup | src/main/java/file/scanner/DuplicateFiles.java:54-65 | the inner loop writes exactly the lines of the group |
| Report.WriteReport | src/main/java/file/scanner/DuplicateFiles.java:52-66 | the nested loops write exactly the header followed by the lines of each group in list order |
| Report.ReportLength | src/main/java/file/scanner/DuplicateFiles.java:52-66 | a report has one header line first, and one line per member path plus one blank line per group |
| Report.ReportLineAt | src/main/java/file/scanner/DuplicateFiles.java:53-66 | the lines of group i start right after the header and the lines of the groups before it. They are its member lines in path order, then the blank line |
| Report.MemberLines | src/main/java/file/scanner/DuplicateFiles.java:54-64 | line j of a group's member lines carries the group total, the group name, the stamp and the path of member j, each followed by " , " |
| Report.Swap | src/main/java/file/scanner/DuplicateFiles.java:49 | two elements are exchanged, nothing else moves, and the contents stay the same multiset |
| Report.SortBySizeDescending | src/main/java/file/scanner/DuplicateFiles.java:49 | after the sort the groups are ordered by total, largest first, and they are a permutation of the groups before it |
| DuplicateFiles.Deliver | src/main/java/file/scanner/DuplicateFiles.java:74 | the walker's callback for one event changes the visitor's table as Apply says and answers Continue |
| DuplicateFiles.CalculateDuplicateFiles | src/main/java/file/scanner/DuplicateFiles.java:72-77 | the map returned after the walk and the filter has the value Filter(Run(walk)) |
| DuplicateFiles.ValuesOf | src/main/java/file/scanner/DuplicateFiles.java:48 | listing a map's values, in any order, yields each group under its keys exactly once |
| DuplicateFiles.ReportDuplicates | src/main/java/file/scanner/DuplicateFiles.java:46-66 | the sorted list is a permutation of the filtered groups other than the summary, ordered by total, largest first. The report is the header with the summary total, then those groups in that order |
| DuplicateFiles.ReportedGroups | src/main/java/file/scanner/DuplicateFiles.java:46-49 | for a walk with no file named like the reserved key, every listed group has at least two paths. Those paths are all the visited paths of its name, and its total is their summed size. No name is listed twice, and the header's total is the size of all visited files |
| DuplicateFiles.EmptyScanReport | src/main/java/file/scanner/DuplicateFiles.java:52-66 | a walk that visits no file yields a report made of the header alone, with a zero total |
| DuplicateFiles.UnvisitedRun | src/main/java/file/scanner/DuplicateFiles.java:88-116 | a walk made only of directory callbacks and failed visits leaves the fresh visitor's table as it was |

## Left out

- File-system I/O is not modelled: `Files.walkFileTree`, `Files.size` and `Files.getLastModifiedTime` are outside the model. A walk is an input sequence of callbacks in the walker's order, a visited file carries its size, and the stamp of a path is a function parameter.
- The walker's own behaviour is inputs only: a symbolic link, a device or a directory that cannot be opened appears as whichever callback the walker would make.
- VisitFile: the source reads the file's size twice, once for the entity and once for the summary. The model reads one size for both, so a file that changes size between the two reads is not modelled.
- VisitFile: an exception from reading the size, which aborts the walk, is not modelled.
- ReportDuplicates: a failure to read a timestamp at report time, which aborts the whole report, is not modelled.
- ReportDuplicates: it produces the report as a sequence of lines (the text between newlines), not bytes. Byte encoding, buffering and the output file are not modelled.
- `Double.toString(total / 1024.0)` is floating-point formatting and is the parameter `kb`, applied to the integer byte total.
- Sizes and totals are unbounded naturals, so overflow of Java's `long` is not modelled.
- The summary entity is `static` in the source, shared by every visitor in one process. The model gives each visitor its own summary entity, created at zero: one run per process, which is all `main` does.
- HashMap iteration order is unspecified. The listing of values and the removal loop choose keys in an arbitrary order, and their contracts hold for every order.
- SortBySizeDescending: ties between equal totals are not ordered by the contract. The insertion sort never swaps equal totals, but the stability of `Collections.sort` is not stated.
- The list that is sorted holds the groups as values taken after the filter, not entity references. Nothing changes an entity after the walk, so the report is the same.
- GetDuplications: a Dafny map is a value, so the map the visitor hands out is not aliased with its own map. Removing the summary key afterwards leaves the visitor's map as it was, unlike the shared HashMap. Nothing reads the visitor after that point, so the report is the same.
- Argument parsing in `main` (`args[0]`, `args[1]`) is a thin wrapper and is not modelled.
- `Path.toString` is modelled as `/` before every segment, and `getFileName` as the last segment.
- A file named `ALL_SUMMARY_KEY` collides with the reserved summary key, an open hazard of the source's design. The clean properties are stated for walks without such a file. The collision is modelled exactly as the code behaves: the size counts twice and the path joins the summary. `Properties.SentinelCollision` and `Properties.SentinelCollisionWalk` show this.
