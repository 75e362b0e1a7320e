# DIME: a verified model

DIME reads, transforms and writes DXF drawings, and this branch of it also
exports OpenStreetMap XML. The Dafny files here model its core algorithms in
the form the C++ has (classes with mutable fields, in-place arrays, loops) and
prove each against a specification, and then prove what the library promises
about those specifications. `dafny verify dfyconfig.toml` checks everything.

Floating point numbers are `real`, file contents are sequences of characters,
and integer widths are written out where the code depends on them (`ToInt16`,
`ToInt32`, `W8`/`W16`/`W32`).

| files | what they model |
|---|---|
| `LinearAlgebra`, `Exchange`, `Affine`, `Linear` | `dimeMatrix`: in-place inversion with scaled row pivoting, products, the placement matrices |
| `State` | `dimeState` and its lazily cached inverse |
| `Placement`, `Insert`, `Traversal`, `Copies` | INSERT explosion over nested blocks, with the matrix each visit sees, and where each copy is |
| `Box`, `BSPTree`, `LayerData` | the point index and the line-strip and face encoder on top of it |
| `Mesh`, `MeshFacts` | wrapped polygon meshes, in both of their implementations |
| `Tokens`, `Input` | the put-back character stream over a refilled buffer, and the ASCII tokens |
| `Numbers`, `Reals`, `Records`, `Document`, `RoundTrip`, `Output`, `Loader`, `SaveLoad` | records, record holders, HEADER, TABLES and unknown sections, the model: reading, writing, and reading back |
| `Format`, `Grammar`, `LineEnds` | the text of a file in its own characters: group codes, lines, number bases, line ends, and what any arrangement of records loads to |
| `Params`, `LWPolyline`, `Spline` | vertex arrays rebuilt from a flat record stream |
| `Dict`, `References` | the chained hash table, and block references resolved through it |
| `Bits`, `MemHandler` | the aligned bump allocator |
| `Escape`, `OSM` | XML escaping in place, and the nodes and ways of the exporter |

## Results

Each main theorem holds for every input, run or reachable state.

* **Inversion.** `Matrix.Inverse` answers true exactly when an inverse exists,
  and then leaves the two-sided inverse; otherwise the old matrix has a nonzero
  null vector. The invariant is that after step k the array still describes the
  same linear relation with k coordinates of each side exchanged.
* **Explosion.** The traversal is a run of the callback over the flattened
  drawing; a callback that accepts everything sees all of it in order, and the
  matrix of each visit maps a point as applying each placement on its path in
  turn does. In the fields of the INSERT: every visit inside copy (i, j) maps a
  point to where copy (0, 0) has it, moved by j column spacings and i row
  spacings inside the enclosing matrix.
* **Meshes.** Both implementations draw the same cells, and for every
  combination of the two flags, each vertex of either grid is used as often as
  there are cells around it.
* **Point index.** The tree refines a list with live marks; `addPoint` splits at
  most one leaf; index lists decode to exactly the segments and polygons added.
* **Reader.** Tokens depend on the characters of the file only, never on the
  sizes of the refills. What becomes of a line is known for every group code, what
  sections, tables and entries make of records in any order, and where a load
  fails; a file with CR LF line ends loads to the same model as with LF.
* **Variables.** Setting a HEADER variable stores each value in its first record
  before the next name, leaves every other record alone, and counts the values
  stored.
* **References.** What has been read describes the file, object by object, and
  every INSERT of a name that some BLOCK of the file has points to such a block.
* **Round trip.** A model whose tables have titles is read back unchanged from
  what it writes *if and only if* it is legible (strings that survive a line,
  numbers that fit their record type, no ENDSEC in the middle, ...), its tables
  have names of their own, and formatting leaves the spelling of its floating
  point numbers as it is. Whatever a file loads to is legible; if its tables have
  titles, it can be saved and loaded again, and if formatting is stable, nothing
  changes from the second save on. A file with a table that has neither a name
  nor entries loads, but there is no title to save it with
  (`NamelessTableLoads`).
* **Save and load.** Writing a model, opening what was written and reading it
  gives all its sections back, in one method over the three objects.
* **Handles.** Over any load, no handle in the sections (as the int that sscanf
  makes of it) is above the largest handle, so a $HANDSEED that is written after
  it is above all of them.
* **Exporter.** Over every run each convertible entity is printed, in order, with
  its kind, its coordinates and the text of its label; ways are complete, and the
  nodes have different ids if and only if no POINT or MTEXT is converted twice.
* **Where the code falls short of what it looks like, exactly.** Each of these
  has a condition that holds if and only if the code does what is expected, for
  all inputs, and an input that fails: removing by an index (`RemoveAtIndex`),
  mesh indices (`IndicesInRange`), LWPOLYLINE arrays (`VerticesAreSafe`,
  `PolylineSurvives`), SPLINE arrays (`ValuesAreSafe`, `SplineSurvives`),
  allocator alignment (`AlignsExactly`), strings on a line (`StringSurvives`),
  points of the exporter (`OwnNodeIsFound`), the format test (`CheckBinary`).

The code differs from what its comments or its documentation suggest in these
places, and the model follows the code:

* A deleted INSERT that has a block is still exploded: `isDeleted` is looked at
  only when it is not. A POLYLINE ignores the answer of the callback.
* `makeMatrix` of an INSERT without a block resets the matrix to the identity.
* `getInvMatrix` does not look at the answer of `inverse`: for a singular matrix
  it caches what the abandoned inversion has left.
* `removePoint(idx)` removes the *live* point with the coordinates of that index,
  which can have another index.
* Group code 999 never reaches `dimeModel::read`, whose branch for header
  comments is dead: comments are skipped, and lost when a file is read.
* A number that cannot be read in a HEADER or unknown section leaves its record
  with zero, and what is left of its line is where the next group code is looked
  for, which as a rule is not there and fails the load; in a table, an unreadable
  number fails the load itself.
* `checkBinary` steps back to the start of the buffer, which is not the start of
  the file once another refill, or the end of the file, has come before the first
  character that is not the identifier's.
* A 90 record that comes after the first vertex of an LWPOLYLINE is believed
  although the arrays have been allocated; the counters of LWPOLYLINE and SPLINE
  have 16 bits.
* The entity number 0 means "not found" in the point map of the exporter, and a
  POINT in a block that is exploded twice is printed twice under one id.
* `dimeModel::write` puts the address of a string into the record behind
  $HANDSEED if that is not a string record; the model stores an arbitrary number
  of its type there (`NumericSeed`).
* `registerHandle` registers an arbitrary number for an empty handle, since
  sscanf then answers that the input has ended, which is not zero.
* A string of 4096 characters is read, and its NUL is then written behind the
  line buffer (`StringSurvives` says when).

## Model

| member | source | states |
|---|---|---|
| LinearAlgebra.MulActs | src/util/Linear.cpp:210-226 | the product of two matrices acts on a vector like one after the other |
| LinearAlgebra.MulAssociates | src/util/Linear.cpp:210-226 | products can be regrouped, for any size |
| LinearAlgebra.InverseIsUnique | src/util/Linear.cpp:456-513 | a matrix has at most one inverse |
| LinearAlgebra.InvertibleHasNoNullVector | src/util/Linear.cpp:456-513 | an invertible matrix sends no nonzero vector to zero |
| Exchange.StepKeepsRelation | src/util/Linear.cpp:491-502 | after a step on a nonzero pivot the matrix describes the old relation with coordinate k of input and output exchanged |
| Exchange.ExchangedAtStart | src/util/Linear.cpp:456-513 | the invariant of the loop over columns holds before it |
| Exchange.ExchangedStep | src/util/Linear.cpp:491-502 | a step keeps the invariant, for one more column |
| Exchange.ExchangedSwap | src/util/Linear.cpp:485-489 | swapping the pivot row keeps the invariant, for the matrix with those rows swapped |
| Exchange.NoPivotNullVector | src/util/Linear.cpp:468-483 | a column without a pivot gives a nonzero vector that the matrix sends to zero |
| Exchange.OppositeSwap | src/util/Linear.cpp:505-511 | swapping columns undoes a row swap of the inverted matrix |
| Exchange.OppositeIsInverse | src/util/Linear.cpp:456-513 | a fully exchanged matrix is the two-sided inverse |
| Linear.Matrix.FindPivot | src/util/Linear.cpp:469-481 | zero exactly when the column has no entry left; otherwise the row with the largest entry relative to its remaining absolute sum, the first of equals |
| Linear.Matrix.SwapRows | src/util/Linear.cpp:485-489 | the contents with two rows swapped |
| Linear.Matrix.ExchangeAt | src/util/Linear.cpp:491-502 | the in-place loops compute the exchange step |
| Linear.Matrix.Eliminate | src/util/Linear.cpp:468-503 | one turn of the outer loop keeps the invariant, or finds a null vector |
| Linear.Matrix.SwapCols | src/util/Linear.cpp:505-511 | the contents with two columns swapped |
| Linear.Matrix.UndoSwaps | src/util/Linear.cpp:505-511 | undoing the row swaps as column swaps, last first, turns the inverse of the permuted matrix into that of the original |
| Linear.Matrix.Inverse | src/util/Linear.cpp:456-513 | true exactly when an inverse exists, and then the contents are the two-sided inverse of the old ones; false leaves a witness: the old contents have a nonzero null vector |
| Linear.InverseAnswers | src/util/Linear.cpp:456-513 | the answer is true exactly for the matrices without a null vector |
| Linear.ScalingDecides | src/util/Linear.cpp:469-481 | in a column 2, 1 the entry 1 is the pivot if the rest of the first row outweighs the 2 |
| Linear.Matrix.MakeIdentity | src/util/Linear.cpp:140-148 | the contents become the identity |
| Linear.Matrix.SetTranslate | src/util/Linear.cpp:318-324 | the last column is replaced by the translation |
| Linear.Matrix.SetRotate | src/util/Linear.cpp:248-258 | the upper left block is replaced by a rotation about z, from cosine and sine |
| Linear.Matrix.SetRotateAxes | src/util/Linear.cpp:259-279 | the columns are replaced by three axes |
| Linear.Matrix.SetScale | src/util/Linear.cpp:310-316 | the diagonal is replaced by the scale factors |
| Linear.Matrix.MultRight | src/util/Linear.cpp:210-226 | this := this * m for another matrix m, through a copy of the old contents |
| Linear.Matrix.SetTransform | src/util/Linear.cpp:178-207 | translation times rotation times scale |
| Linear.Matrix.MultMatrixVec | src/util/Linear.cpp:335-358 | the image of a point, divided by its W |
| Affine.ApplyIsProduct | src/util/Linear.cpp:335-358 | the image of a point under any matrix is the product with its homogeneous coordinates, divided by the last of them |
| Affine.AffineMul | src/util/Linear.cpp:210-226 | for affine matrices, mapping by a product is mapping twice |
| State.TraversalState.constructor | src/State.cpp:42-56 | identity matrices, a clear dirty bit, and the two public flags asked for |
| State.TraversalState.Copy | src/State.cpp:61-67 | every field is copied, the cache included |
| State.TraversalState.SetMatrix | src/State.cpp:69-74 | the new matrix with a dirty cache; the public flags stay |
| State.TraversalState.SetFlags | include/dime/State.h:76-80 | the public flags are replaced, the dirty bit is kept |
| State.TraversalState.GetInvMatrix | src/State.cpp:77-87 | the inverse of the current matrix whenever it has one, whatever calls came before; public flags and matrix unchanged |
| State.CacheMatches | src/State.cpp:77-87 | a result of the inversion is the only possible inverse |
| Placement.FactorsPoint | src/entities/Insert.cpp:453-486 | the matrices of one level map a point as the level does: base point, scale, rotation, insertion point, axes, row and column offset |
| Placement.PathActs | src/entities/Insert.cpp:398-434 | the product along a path of levels maps a point as applying each level in turn |
| Insert.RunConcat | src/entities/Insert.cpp:398-434 | running the callback over two stretches of a drawing is running it over one after the other, unless it stops |
| Traversal.Traverser.MakeMatrix | src/entities/Insert.cpp:453-486 | the matrix is multiplied by the placement of the INSERT; without a block it is reset to the identity |
| Traversal.Traverser.TraverseEntity | src/entities/Entity.cpp:618-625 | the calls made, and the answer, are those of the callback over the flattened entity, of whatever kind |
| Traversal.Traverser.TraverseInsert | src/entities/Insert.cpp:398-434 | the calls made for an INSERT are those over its flattened rows, columns, nested blocks and attributes |
| Traversal.Traverser.TraverseRows | src/entities/Insert.cpp:407-419 | the loop over the rows |
| Traversal.Traverser.TraverseCells | src/entities/Insert.cpp:408-418 | the loop over the columns of a row, each with its own copy of the matrix |
| Traversal.Traverser.TraverseBlock | src/entities/Block.cpp:357-372 | the block is announced, its entities follow unless that is refused, then its end |
| Traversal.Traverser.TraverseEntities | src/Model.cpp:522-553 | the whole model: its blocks if asked for, then its entities |
| Traversal.Traverser.SeeEntities | src/Model.cpp:522-553 | with a callback that accepts everything: exactly the flattened model, each visit with a matrix that maps points by the placements along its path |
| Traversal.AcceptingSeesAll | src/entities/Insert.cpp:398-434 | a callback that always accepts sees exactly the flattened drawing, in order |
| Traversal.StopsAtFirstRefusal | src/entities/Insert.cpp:417-431 | a callback that refuses an entity sees nothing after it |
| Traversal.RefusedBlock | src/entities/Block.cpp:357-372 | a callback that refuses a BLOCK is shown its ENDBLK next, whose refusal ends the traversal |
| Traversal.RefusedEntities | src/entities/Entity.cpp:618-625 | the answer for a POLYLINE is ignored, that for another entity can end the traversal, a deleted one is not shown |
| Traversal.ModelOrder | src/Model.cpp:522-553 | the blocks are visited first, in order, and then the entities |
| Traversal.VisitMatrix | src/entities/Insert.cpp:409-417 | the matrix a visit sees maps each point by the placements along its path, one level at a time |
| Traversal.RowCount | src/entities/Insert.cpp:407-419 | an INSERT makes rows times columns copies of what its block flattens to, wherever it stands |
| Copies.CopyMoves | src/entities/Insert.cpp:398-434 | every visit inside copy (i, j) is that of copy (0, 0), and maps a point to where that maps it, moved by j column spacings in x and i row spacings in y inside the enclosing matrix; or to the same place, inside an INSERT without a block |
| Copies.CopyPlace | src/entities/Insert.cpp:453-486 | where copy (i, j) has a point of the block, written out in base point, scale, rotation, insertion point, axes and spacings |
| Copies.OwnPlace | src/entities/Insert.cpp:424-432 | the INSERT's own entities are placed in the same way, but once and without spacings |
| Copies.PlainBlock | src/entities/Block.cpp:357-372 | a block of simple entities is shown as the BLOCK, those that are not deleted, in order, and the ENDBLK |
| Copies.DeletedIsShown | src/entities/Insert.cpp:398-434 | an INSERT whose block is exploded is shown in the same way whether it is deleted or not |
| Copies.InsertShows | src/entities/Insert.cpp:398-434 | an INSERT is shown once if it is not exploded and not deleted, and otherwise as rows times columns copies, none for a negative number |
| Copies.PolylineShows | src/entities/Polyline.cpp:833-860 | the vertices of a POLYLINE follow it if they are asked for |
| Box.CornersBound | src/util/Box.cpp:75-84 | the grown box contains every point |
| Box.CornersTouch | src/util/Box.cpp:75-84 | each side of the box touches a point |
| Box.Box.Grow | src/util/Box.cpp:75-84 | the box is that of one more point, from the empty-box sentinel on |
| BSPTree.Node.Distribute | src/util/BSPTree.cpp:214-220 | every index goes to the child that leftOf says, and none is lost |
| BSPTree.PlaneDivides | src/util/BSPTree.cpp:168-212 | the middle of the longest side has some of the points on either side |
| BSPTree.Node.Split | src/util/BSPTree.cpp:168-225 | a full leaf becomes two leaves, neither of them empty, with the same points |
| BSPTree.Node.AddPoint | src/util/BSPTree.cpp:98-125 | returns the live equal point or appends one; exactly one split if the leaf is full and none otherwise; every point stays on its side of every plane, and no leaf exceeds the maximum |
| BSPTree.Node.FindPoint | src/util/BSPTree.cpp:127-143 | the index of the live point with these coordinates, or -1 |
| BSPTree.Node.RemovePoint | src/util/BSPTree.cpp:145-166 | the live point with these coordinates is no longer live; the structure is kept |
| BSPTree.Tree.AddPoint | src/util/BSPTree.cpp:325-334 | the tree refines appending to a list unless a live point is equal; user data is stored for new points only |
| BSPTree.Tree.FindPoint | src/util/BSPTree.cpp:362-366 | the tree refines the search of the list |
| BSPTree.Tree.RemovePoint | src/util/BSPTree.cpp:339-343 | the tree refines unmarking in the list |
| BSPTree.Tree.RemoveAt | src/util/BSPTree.cpp:349-354 | the live point with the coordinates of the index is removed |
| BSPTree.Tree.Clear | src/util/BSPTree.cpp:374-383 | the empty list again |
| BSPTree.IndicesAreStable | src/util/BSPTree.cpp:325-383 | over every run without clear, indices keep their coordinates, and a point is found at its index until it is removed |
| BSPTree.LiveMeansAddedLast | src/util/BSPTree.cpp:325-383 | over every run, a point is found exactly when its last mention since the last clear added it |
| BSPTree.RemoveAtIndex | src/util/BSPTree.cpp:349-354 | removing by index removes that index and no other exactly when no other index is live at its coordinates |
| BSPTree.RemoveAtCounterexample | src/util/BSPTree.cpp:349-354 | add, remove and add again: removing index 0 removes index 1 |
| LayerData.StripGrows | src/convert/layerdata.cpp:97-104 | the strip encoder appends exactly one segment, and starts a new strip only where the last one does not end |
| LayerData.Layer.AddLine | src/convert/layerdata.cpp:76-105 | decoding the line indices gives the segments before, and the (transformed) new one |
| LayerData.Layer.AddPoint | src/convert/layerdata.cpp:111-123 | the (transformed) point is appended |
| LayerData.Layer.AddTriangle | src/convert/layerdata.cpp:129-157 | one more polygon, or three more segments, by fill mode |
| LayerData.Layer.AddQuad | src/convert/layerdata.cpp:164-198 | one more polygon, or four more segments, by fill mode |
| Mesh.DimensionsAddUp | src/entities/Polyline.cpp:538-566 | the sizes found add up to the number of vertices, and none are found exactly when no choice of them does; the announced ones are kept whenever they add up |
| Mesh.Extractor.Extract | src/entities/Polyline.cpp:536-628 | the index list is that of all cells of both grids, row by row, each once; false exactly when the sizes do not add up |
| Mesh.Converter.Convert | src/convert/polylineconvert.cpp:242-325 | convert_mesh draws the same quads: their polygons, or their outlines |
| Mesh.SameFaces | src/convert/polylineconvert.cpp:242-325 | the index list of extractGeometry decodes to the polygons convert_mesh draws |
| MeshFacts.IndicesInRange | src/entities/Polyline.cpp:575-628 | every index names a vertex exactly when neither grid makes up for a negative size of the other |
| MeshFacts.NegativeSizeLeavesRange | src/entities/Polyline.cpp:575-628 | a smoothed grid of -1 rows makes the control grid start at -1 |
| MeshFacts.SensibleMeshInRange | src/entities/Polyline.cpp:575-628 | always, for sizes of at least one and smooth counts of at least zero |
| MeshFacts.ClosedMeshUses | src/entities/Polyline.cpp:575-628 | a mesh closed both ways uses every vertex exactly four times |
| MeshFacts.ControlUses | src/entities/Polyline.cpp:575-602 | how often each vertex of the control grid is used, for all flags: as often as there are rows of cells around it, two if bit 1 closes that direction and else one at the ends and two inside, times the columns of cells by bit 32 |
| MeshFacts.SmoothUses | src/entities/Polyline.cpp:604-628 | the same for each vertex of the smoothed grid |
| MeshFacts.CellCorners | src/convert/polylineconvert.cpp:282-325 | the four corners of a cell in row and column numbers, the last row and column followed by the first |
| MeshFacts.ClosedInMOnly | src/entities/Polyline.cpp:575-576 | a mesh of 4 by 3 vertices has 8 cells if closed in M only and 9 if closed in N only |
| Tokens.CodeAfterComments | src/Input.cpp:296-305 | a group code, never 999: comments are skipped with their strings |
| Input.FileInput.DoBufferRead | src/Input.cpp:603-638 | a refill of any size changes nothing about the characters to come |
| Input.FileInput.Get | src/Input.cpp:680-708 | the next character, false exactly at the end |
| Input.FileInput.PutBack | src/Input.cpp:641-648 | what comes next is what the read buffer holds there, or the character pushed |
| Input.FileInput.PutBackString | src/Input.cpp:654-664 | the same for a string |
| Input.FileInput.CheckBinary | src/Input.cpp:947-974 | true exactly for the identifier; an ASCII file is then read from its start exactly when it is empty, or its first character that is not the identifier's exists and came with the first refill |
| Input.OpenBeginning | src/Input.cpp:970-973 | a file that is the first character of the identifier is not read from its start |
| Input.Open | src/Input.cpp:947-974 | a file is binary exactly when it starts with the literal identifier |
| Input.FileInput.RegisterHandle | src/Model.cpp:649-668 | the larger of the handle and the largest one so far; any larger number for an empty string |
| Input.FileInput.SkipWhiteSpace | src/Input.cpp:714-728 | the first character that is no blank is next, for any refills |
| Input.FileInput.NextLine | src/Input.cpp:730-748 | the rest of the line is gone, for LF, CR and CR LF, and the line is counted if it ended |
| Input.FileInput.ReadChar | src/Input.cpp:841-859 | takes the character if it is next, and nothing otherwise |
| Input.FileInput.ReadDigits | src/Input.cpp:818-836 | the longest run of digits |
| Input.FileInput.ReadUnsignedIntegerString | src/Input.cpp:789-816 | decimal digits, or hexadecimal ones after 0x |
| Input.FileInput.ReadInteger | src/Input.cpp:754-769 | an optional sign and digits, as strtol values them |
| Input.FileInput.ReadInt | src/Input.cpp:331-408 | the buffered reader reads the token function's value and leaves its rest |
| Input.FileInput.ReadString | src/Input.cpp:513-543 | the same for strings |
| Input.FileInput.ReadDouble | src/Input.cpp:453-508 | the same for the spelling of a number |
| Input.FileInput.ReadGroupCode | src/Input.cpp:255-310 | the code that was put back, or the next one after comments |
| Input.FileInput.PutBackGroupCode | src/Input.cpp:319-324 | the next group code is this one |
| Numbers.NumeralValue | src/Output.cpp:154-178 | the digits of a numeral in its base have its value |
| Numbers.ReadPadded | src/Output.cpp:135-178 | a right-justified number on a line is read back: padding is skipped, and no numeral looks octal or hexadecimal |
| Numbers.StringSurvives | src/Input.cpp:513-543 | a string comes back from its line exactly when it has no leading blank, no CR, LF or NUL, and at most 4096 characters; of those, exactly the ones below 4096 leave room for the NUL |
| Numbers.LeadingBlankIsLost | src/Input.cpp:513-543 | a string that starts with a blank does not come back |
| Numbers.LongestLineOverruns | src/Input.cpp:526-532 | 4096 characters come back, without room for their NUL |
| Format.StringLines | src/Input.cpp:513-543 | the strings that come back from a line, in characters |
| Format.OtherBases | src/Input.cpp:754-816 | 0x and hexadecimal digits are read in base 16, 0 and octal digits in base 8 |
| Format.OctalStops | src/Input.cpp:754-769 | an 8 or a 9 ends a number that starts with 0, whatever digits follow |
| Format.DigitChars | src/Input.cpp:789-836 | which characters are digits, in either base |
| Format.IntsAreCut | src/Input.cpp:331-408 | assigning to 16 or 32 bits keeps the value up to multiples of 2^16 or 2^32 |
| Format.CommentLines | src/Input.cpp:296-305 | the two lines of a comment are no record |
| Format.PrintedWidths | src/Output.cpp:135-178 | group codes take three columns and integers six, longer ones what they need |
| Format.SampleFile | src/Model.cpp:268-304 | the lines of a file with a HEADER variable and a LAYER, literally |
| LineEnds.SameModel | src/Input.cpp:730-748 | for every file without CR: replacing each LF by CR LF changes nothing about the model that is loaded |
| LineEnds.LoneCR | src/Input.cpp:730-748 | a CR without LF ends a line too, but not at the end of the file |
| Grammar.FileStarts | src/Model.cpp:201-240 | an empty file fails, EOF ends the load with success whatever follows, and anything but SECTION or EOF fails |
| Grammar.SectionStarts | src/Model.cpp:218-226 | a section without its name fails |
| Grammar.SectionHolds | src/sections/UnknownSection.cpp:103-138 | for any records: a section holds those before its first ENDSEC, an unknown one the ENDSEC too, and without ENDSEC the load fails |
| Grammar.TablesStart | src/sections/TablesSection.cpp:103-135 | anything but TABLE or ENDSEC between tables fails |
| Grammar.EntryHolds | src/tables/LayerTable.cpp:104-144 | for any records: a LAYER takes its last name and last colour and keeps the other records in order; any other entry keeps all |
| Grammar.HeadHolds | src/tables/Table.cpp:117-132 | for any records before the first entry: the last name counts, all records but names and sizes are kept |
| Grammar.UnnamedTable | src/tables/Table.cpp:209-215 | a table without a name is written under the kind of its first entry, which it then has as its name |
| Grammar.TooWide | src/RecordHolder.cpp:115-166 | a number that does not fit 8 or 16 bits becomes zero in a section, which then fails for want of a group code; it fails an entry and a table at once |
| Grammar.HandleIs | src/Model.cpp:649-668 | a record with another group code than 5 is no handle; with 5, hexadecimal digits are one and have their value |
| Grammar.HandleForms | src/Model.cpp:649-668 | a handle can start with 0x or a minus sign, and ends with its last hexadecimal digit |
| Reals.ReadRealLine | src/Input.cpp:890-945 | every spelling of the grammar is read back as a whole |
| Reals.TakenIsReal | src/Input.cpp:890-945 | what was read as a number will be read as one again |
| Records.TypeTable.GetRecordType | src/records/Record.cpp:342-356 | the table, filled once, answers what the cascade says for every code, in or out of its range |
| Format.RealCodes | src/records/Record.cpp:363-400 | the line behind a code in 10-59, 140-147, 210, 220 or 230 becomes the real number it spells |
| Format.IntegerCodes | src/records/Record.cpp:221-325 | that behind an 8-, 16- or 32-bit code becomes its integer if that fits; a wider one is refused for 8 and 16 bits, and for 32 bits it is cut off, or if it is beyond 64 bits, -1 or 0 |
| Format.TextCodes | src/records/Record.cpp:221-325 | that behind any other code becomes the string on it; 310 to 369 are hexadecimal strings |
| Records.ReadPrintedValue | src/records/Record.cpp:363-400 | a value that fits its group code's type is read back from its line |
| Records.ReadValueFits | src/records/Record.cpp:363-400 | every value that is read fits the type of its code |
| Records.CommentIsSkipped | src/Input.cpp:296-305 | a printed comment disappears on reading |
| Records.SectionReadsBack | src/sections/UnknownSection.cpp:103-152 | printed records without ENDSEC, and ENDSEC, are read back as they were |
| Records.HolderReadsBack | src/RecordHolder.cpp:115-182 | printed records without code 0 are read back, up to the code 0 that is put back |
| Records.SectionIsSound | src/sections/UnknownSection.cpp:103-138 | the records of a section that was read are printable, with ENDSEC at the end only |
| RoundTrip.EntryRebuilt | src/tables/LayerTable.cpp:104-144 | handling the records an entry writes gives the entry |
| RoundTrip.EntriesReadBack | src/tables/Table.cpp:134-149 | printed entries are read back through the put-back code 0, up to ENDTAB |
| RoundTrip.TableReadsBack | src/tables/Table.cpp:110-188 | a printed table is read back, with its title as its name |
| RoundTrip.TablesReadBack | src/sections/TablesSection.cpp:93-153 | printed tables are read back, up to ENDSEC |
| RoundTrip.SectionReturns | src/sections/Section.cpp:81-102 | a printed section of any of the three kinds is read back |
| RoundTrip.WrittenModelReadsBack | src/Model.cpp:188-304 | every legible model whose tables have titles is read back from what is printed, without its comments |
| RoundTrip.FormattedModelReadsBack | src/Output.cpp:180-201 | the same with numbers as any formatting prints them |
| RoundTrip.LoadedIsLegible | src/Model.cpp:188-261 | whatever a file loads to is legible, failed loads included |
| RoundTrip.LoadSaveLoad | src/Model.cpp:188-304 | for every file that loads to tables with titles: saving and loading again gives its sections with formatted numbers and named tables, which are the same sections exactly when each table had a name and formatting changes no number |
| RoundTrip.SavesSettle | src/Model.cpp:188-304 | when formatting a formatted number changes nothing, the second save and all later ones are read back unchanged |
| RoundTrip.NamelessTableLoads | src/tables/Table.cpp:110-150 | a table with neither a name nor entries loads, and has no title |
| RoundTrip.ModelSurvives | src/Model.cpp:188-304 | a model with titled tables comes back unchanged exactly when it is legible, its tables have names of their own, and formatting does not change its numbers |
| RoundTrip.HandleIsReadable | src/Model.cpp:675-680 | the hexadecimal seed is a readable string and has the value of the handle |
| RoundTrip.SeededIsLegible | src/Model.cpp:271-287 | writing changes no more than the first HEADER section and keeps the model legible, whatever kind of record the value of $HANDSEED is |
| RoundTrip.SavedModelLoads | src/Model.cpp:268-304 | what write() writes, with its new $HANDSEED and formatted numbers, is read back |
| RoundTrip.NumericSeed | src/Model.cpp:276-285 | a $HANDSEED that is a 16-bit number gets some other number |
| RoundTrip.SeedPlace | src/Model.cpp:271-287 | what writing changes is the record behind the first name $HANDSEED of the first HEADER section, if that is no name, and nothing else |
| RoundTrip.HandleScans | src/Model.cpp:659-680 | the hexadecimal seed, read as handles are, has the value of the handle |
| RoundTrip.SeedIsAbove | src/Model.cpp:271-287 | a textual $HANDSEED becomes a handle above every handle of the model |
| RoundTrip.PrintedIsAscii | src/Input.cpp:962-974 | a printed model neither passes for a binary file nor starts like one |
| SaveLoad.SaveAndLoad | src/Model.cpp:188-304 | write, open, test of the format and read, composed: the new model has all sections of the old one, with its new seed, with formatted numbers and with table titles as names, whatever the refills |
| SaveLoad.LoadAndSave | src/Model.cpp:188-304 | read and write, composed: what was loaded is printed, with a textual $HANDSEED above every handle in it |
| Output.FileOutput.WriteGroupCode | src/Output.cpp:135-148 | three columns and a line end are appended |
| Output.FileOutput.WriteInt | src/Output.cpp:154-178 | six columns and a line end are appended |
| Output.FileOutput.WriteString | src/Output.cpp:207-211 | the string and a line end are appended |
| Output.FileOutput.WriteDouble | src/Output.cpp:180-201 | the formatted number and a line end are appended |
| Output.FileOutput.WriteRecords | src/RecordHolder.cpp:171-182 | the records are appended in order, their numbers formatted |
| Loader.ReadRecord | src/records/Record.cpp:151-161 | the next record of the file, the answer of its read() ignored |
| Loader.ReadRecordData | src/records/Record.cpp:363-400 | the value for a group code, and whether it was read |
| Loader.HeaderSection.Read | src/sections/HeaderSection.cpp:167-189 | the loop reads the records before ENDSEC |
| Loader.HeaderSection.Write | src/sections/HeaderSection.cpp:192-205 | the section is printed with its name and ENDSEC |
| Loader.UnknownSection.Read | src/sections/UnknownSection.cpp:103-138 | the loop reads the records and the ENDSEC |
| Loader.UnknownSection.Write | src/sections/UnknownSection.cpp:141-152 | the section is printed with its name |
| Loader.TableEntry.HandleRecord | src/tables/LayerTable.cpp:130-144 | takes name and colour of a LAYER, and nothing else |
| Loader.TableEntry.Read | src/RecordHolder.cpp:115-166 | every record up to a code 0 is handled or kept, and the code 0 is put back |
| Loader.TableEntry.Write | src/tables/TableEntry.cpp:145-151 | the entry is printed: its kind, its records, and name and colour of a LAYER |
| Loader.DxfTable.ReadHead | src/tables/Table.cpp:117-132 | the first loop: name, records, and the size hint, up to a code 0 |
| Loader.DxfTable.ReadEntries | src/tables/Table.cpp:134-149 | the second loop: the entries up to ENDTAB |
| Loader.DxfTable.Read | src/tables/Table.cpp:109-151 | a table is read as the specification says |
| Loader.DxfTable.Write | src/tables/Table.cpp:157-188 | the table is printed with its title and the number of its entries |
| Loader.TablesSection.Read | src/sections/TablesSection.cpp:93-136 | tables are read up to ENDSEC |
| Loader.TablesSection.Write | src/sections/TablesSection.cpp:140-153 | the tables are printed in order |
| Loader.DxfModel.ReadSection | src/sections/Section.cpp:81-102 | the section of this name, read by its own loader |
| Loader.DxfModel.Read | src/Model.cpp:188-261 | the loop over sections reads what the specification says, and keeps what came before a failure; no handle in the sections is above the largest handle, which never shrinks |
| Loader.HeaderSection.FindVariable | src/sections/HeaderSection.cpp:227-239 | the first record with code 9 and the name, or -1 |
| Loader.HeaderSection.GetVariable | src/sections/HeaderSection.cpp:76-95 | the records behind the name, up to the next name or the number asked for; -1 without the variable |
| Loader.HeaderSection.SetVariable | src/sections/HeaderSection.cpp:105-140 | a missing variable is appended; each value goes to the first record of its group code before the next name, and those that find one are counted |
| Document.NewVariableIsSet | src/sections/HeaderSection.cpp:105-140 | a new variable has exactly the values it was given, if no two have the same group code and none is a name |
| Document.ExistingVariableIsSet | src/sections/HeaderSection.cpp:125-140 | for a variable that is there and values of different codes: each value goes to the first record of its code before the next name, every other record stays, and the answer is the number of values that found one |
| Document.TwoValuesOfOneCode | src/sections/HeaderSection.cpp:112-140 | a new variable with two values of one group code: the first of its records gets both, and the other stays empty or zero |
| Loader.FirstValueIsSet | src/sections/HeaderSection.cpp:125-139 | setting a variable's first value changes that record and nothing else |
| Loader.DxfModel.SeedHeader | src/Model.cpp:278-285 | the value behind $HANDSEED, found and set through the loops of the section, becomes what its record takes of the next handle in hexadecimal, and the handle is given back |
| Loader.DxfModel.Write | src/Model.cpp:268-304 | the model with the new seed is printed: comments, sections, EOF |
| LWPolyline.RunReaches | src/entities/LWPolyline.cpp:186-280 | after any records that store inside the arrays: equal sizes, a counter within them, and only vertex kinds seen; or a counter that has wrapped around with nothing seen |
| LWPolyline.AdmissibleIsSafe | src/entities/LWPolyline.cpp:191-276 | no stream stores outside the arrays, as long as no 90 record exceeds arrays that are already there, or 32767 |
| LWPolyline.VerticesAreSafe | src/entities/LWPolyline.cpp:191-263 | in every state that any records lead to, all vertex records that may follow are harmless exactly when no more vertices are announced than the arrays hold and 16 bits count, and the counter has not wrapped nor is about to; or when the number announced is below all counters |
| LWPolyline.LateAnnouncementOverruns | src/entities/LWPolyline.cpp:274-276 | four records that store outside the arrays |
| LWPolyline.PolylineSurvives | src/entities/LWPolyline.cpp:117-171 | handling what write() writes is safe, and gives the polyline back exactly when its size is a 16-bit number and it has width arrays just if it has no constant width |
| LWPolyline.SameContent | src/entities/LWPolyline.cpp:117-171 | what coming back means: the same fields, and the same coordinates, widths and bulge for each vertex |
| LWPolyline.LostWidthIsNotKept | src/entities/LWPolyline.cpp:117-171 | a polyline without width arrays and without constant width does not come back |
| LWPolyline.TooManyVerticesAreLost | src/entities/LWPolyline.cpp:124-125 | nor does one of 32768 vertices |
| LWPolyline.Defaults | src/entities/ExtrusionEntity.cpp:63-67 | what a polyline has that no record has said otherwise: extrusion (0,0,1), all else zero |
| LWPolyline.CodesMean | src/entities/LWPolyline.cpp:186-280 | which field each group code sets |
| LWPolyline.WrittenCounts | src/entities/LWPolyline.cpp:117-171 | how many records of each group code are written: 210, 220 and 230 exactly when the direction is not (0,0,1), no field that is zero, x and y of every vertex |
| LWPolyline.Entity.constructor | src/entities/LWPolyline.cpp:55-60 | the fields of a new object |
| LWPolyline.Entity.HandleRecord | src/entities/LWPolyline.cpp:186-280 | the object takes the record as specified, and says whether it was its own |
| LWPolyline.Entity.HandleVertex | src/entities/LWPolyline.cpp:191-263 | the first vertex record allocates; a repeated kind starts the next vertex |
| LWPolyline.Entity.HandleExtrusion | src/entities/ExtrusionEntity.cpp:131-146 | thickness and extrusion direction |
| LWPolyline.Entity.Write | src/entities/LWPolyline.cpp:117-171 | the records written, zero-valued ones left out |
| Spline.ValuesAreSafe | src/entities/Spline.cpp:244-288 | in every state that any records lead to, values of all four arrays, mixed in any order, are stored inside exactly when each comes while its array has room: up to its end if more is announced, else until the 16-bit counter wraps |
| Spline.AdmissibleIsSafe | src/entities/Spline.cpp:238-329 | any stream of counts and values is safe if counts are not negative nor above an array that is there, and no array is moved on 32768 times before its last value |
| Spline.LateCountOverruns | src/entities/Spline.cpp:267-276 | without that: a late count, and a negative one |
| Spline.SplineSurvives | src/entities/Spline.cpp:153-225 | handling what write() writes is safe and gives back knots, control points, fit points, and every weight even when all are one and left out; the fit tolerance survives exactly with fit points or at its default |
| Spline.FitToleranceIsLost | src/entities/Spline.cpp:187-190 | without fit points, another fit tolerance does not come back |
| Spline.WrittenCodes | src/entities/Spline.cpp:153-225 | how many records of each group code are written: each count and tolerance once, 44 only with fit points, as many knots, control and fit points as there are, and weights for all control points exactly when one is not 1 |
| Spline.Defaults | src/entities/Spline.cpp:52-66 | what a spline has that no record has said otherwise: planar, degree 3, tolerances of 1e-7 |
| Spline.CodesMean | src/entities/Spline.cpp:290-329 | which count, tolerance or flag each group code sets |
| Spline.ElementsMean | src/entities/Spline.cpp:238-289 | which coordinate of which array each group code sets |
| Spline.Entity.constructor | src/entities/Spline.cpp:52-66 | the fields of a new object; the fit tolerance starts as that of the control points |
| Spline.Entity.HandleRecord | src/entities/Spline.cpp:238-329 | the object takes the record as specified, and says whether it was its own |
| Spline.Entity.HasWeights | src/entities/Spline.cpp:84-93 | true exactly when some weight is not one |
| Spline.Entity.Write | src/entities/Spline.cpp:153-225 | the records written, with the weights only if some is not one |
| Dict.Table.HashOf | src/util/Dict.cpp:207-219 | the loop computes the bucket of a string, with 32-bit shifts of signed characters |
| Dict.HashIsXor | src/util/Dict.cpp:207-219 | the hash is the exclusive or of the sign-extended characters, character i shifted by 5i bits less multiples of 24 |
| Dict.Table.FindEntry | src/util/Dict.cpp:193-205 | the slot of the key, or the end of its chain when it is not there |
| Dict.Table.Relink | src/util/Dict.cpp:175-188 | assigning to a slot changes one chain from there on, and no other |
| Dict.Table.Enter | src/util/Dict.cpp:93-137 | the map with one more key or a new value; re-entering returns the stored string |
| Dict.Table.FindString | src/util/Dict.cpp:143-150 | the stored string of a key that is there |
| Dict.Table.Find | src/util/Dict.cpp:156-169 | the value of a key that is there |
| Dict.Table.Remove | src/util/Dict.cpp:175-188 | the map without the key, whose entry is in the table no more |
| Dict.Table.Clear | src/util/Dict.cpp:71-84 | the empty map; the freed entries are those of all chains, each in its place |
| Dict.KeyIsOnce | src/util/Dict.cpp:193-205 | a key is in one chain only, that of its own bucket, and there once |
| MemHandler.Node.Alloc | src/util/MemHandler.cpp:83-96 | room behind the padding, if there is enough; the padding stays in any case |
| MemHandler.Handler.TakeFromCurrent | src/util/MemHandler.cpp:185-189 | from the current block, which has passed its middle if that fails |
| MemHandler.Handler.AllocMem | src/util/MemHandler.cpp:175-193 | never fails; the range is inside its block, apart from all ranges handed out before, and aligned to any power of two |
| MemHandler.Handler.StringAlloc | src/util/MemHandler.cpp:155-164 | a copy of the string, while every earlier range keeps its bytes |
| MemHandler.Handler.Destroy | src/util/MemHandler.cpp:120-137 | every block is freed once |
| MemHandler.AlignsExactly | src/util/MemHandler.cpp:85-90 | offsets are aligned wherever the block stands, exactly for powers of two |
| MemHandler.ThreeDoesNotAlign | src/util/MemHandler.cpp:85-90 | an alignment of three leaves position 1 where it is |
| MemHandler.RetiredIsUsed | src/util/MemHandler.cpp:185-191 | a block is given up past its middle, up to the padding of the last request |
| References.Model.ReadBlockName | src/entities/Insert.cpp:146-157 | an unknown name is entered as a reference to nothing, a known one is looked up and never changed |
| References.Model.AddBlock | src/entities/Block.cpp:154-159 | the name stands for this block from now on |
| References.Model.AddReference | src/Model.cpp:312-318 | the dictionary maps the name to this |
| References.Model.ReadItem | src/entities/Entity.cpp:406-450 | an entity and all that follow it become objects in reading order, as the file has them |
| References.Model.FixReferences | src/entities/Insert.cpp:438-449 | every INSERT of the subtree whose name stands for something points to something; nothing else changes |
| References.Model.FixSection | src/sections/BlocksSection.cpp:153-160 | the same for all entities of a section |
| References.Model.Read | src/Model.cpp:188-261 | the objects are those of the file's sections in reading order, and every INSERT of the first BLOCKS and the first ENTITIES section, at any depth, points to a block of its name wherever one is defined |
| References.FixedIsResolved | src/entities/Insert.cpp:438-449 | since no step turns a defined name back into nothing, what was looked up last is resolved |
| References.SectionsDescribe | src/Model.cpp:188-261 | as many objects as the file has items, with the same kinds and names in the same order |
| References.EveryInsertResolved | src/Model.cpp:251-255 | with at most one section of each kind: an INSERT of the file whose name any BLOCK of the file has, before or after it, points to the object of a BLOCK of that name |
| Escape.EscapeString | src/convert/convertosm.cpp:571-616 | the in-place loop ends, with the character-by-character substitution |
| Escape.UnescapesToText | src/convert/convertosm.cpp:571-616 | the result is character data in which every ampersand starts a reference, and stands for the text |
| Escape.NoMarkup | src/convert/convertosm.cpp:571-616 | no raw <, >, ' or " is left |
| OSM.Converter.NewEntityNum | src/entities/Entity.cpp:181-186 | the number of a new entity, from the shared counter |
| OSM.Converter.PlaceNode | src/convert/convertosm.cpp:271-318 | a node for a point that has none, with an id from the shared counter |
| OSM.Converter.ConvertVertices | src/convert/convertosm.cpp:266-506 | nodes for the new points, and a way with one nd per known vertex |
| OSM.Converter.ConvertPoint | src/convert/convertosm.cpp:508-567 | a node under the entity's own number, known from then on unless its point was |
| OSM.Converter.ConvertMText | src/convert/convertosm.cpp:619-682 | the same, with the escaped text |
| OSM.Converter.Callback | src/convert/convertosm.cpp:728-811 | each kind of entity is converted as specified, and the traversal always goes on |
| OSM.ReferencesAre | src/convert/convertosm.cpp:331-348 | no vertex is left out of a way when all points are known |
| OSM.WayCompletes | src/convert/convertosm.cpp:266-506 | each way lists one nd per vertex in order, and each names a node printed before for an equal key |
| OSM.RunIsSound | src/convert/convertosm.cpp:728-811 | the same over every run of entities, as long as ids fit an int |
| OSM.EveryEntityIsPrinted | src/convert/convertosm.cpp:728-811 | over every run, what is printed under entity numbers is, in order, one element for each entity that is converted: ways with number and kind, points, and labels whose unescaped name is the text |
| OSM.FreshIdsAreFresh | include/dime/entities/Entity.h:144-147 | ids from the counter differ from each other and from every entity number |
| OSM.NodeIdsAreDistinct | src/convert/convertosm.cpp:266-682 | over every run, the printed nodes have different ids exactly when no POINT or MTEXT is converted twice |
| OSM.SamePointTwice | src/convert/convertosm.cpp:508-567 | a POINT that is converted twice is printed twice under one id |
| OSM.OwnNodeIsFound | src/convert/convertosm.cpp:535-553 | a POINT or MTEXT is found again, and a vertex on it takes no new node, exactly when its place was known or its number is not 0 as an int |
| OSM.PointZeroIsForgotten | src/convert/convertosm.cpp:704-722 | a POINT with the number 0 is not found again, and a line from it gets a node of its own |

## Left out

- Binary DXF and endianness: the ASCII format is assumed throughout.
- Files, gzip, progress callbacks, aborting, diagnostics, command-line programs and VRML output.
- Floating point rounding, NaN and infinities: numbers are `real`; a row whose remaining entries are all zero is never taken as pivot, which is what the comparison with 0/0 does.
- Input.FileInput.ReadDouble: gives the spelling of a number; its value (`atof`, the clamping to FLT_MAX) is not modelled, and what `%g` prints for it is any function from spellings to spellings.
- Trigonometry: rotations take a cosine and a sine; `generateUCS` is the three axes an INSERT is given.
- `setRotation`, `transpose`, `multLeft`, `inverse2` and `determinant` of the matrix class.
- Linear.Matrix.MultMatrixVec: excludes points with W = 0, where the source divides by zero.
- `dimeInput::putBack` keeps its buffer as a growable sequence; `TMPBUFSIZE` and other buffer sizes that input can exceed are not modelled, and the line buffer itself is the string that is returned.
- Input.FileInput.CheckBinary: what follows the identifier of a binary file is not read.
- Handle registration: the largest handle of the model is a field of the reader while that model is being read.
- A missing string at the end of a file fails the load where the code would compare a null pointer.
- Loader.DxfTable.Write: excludes a table with neither a name nor entries, whose title the source prints from a null pointer.
- Loader.TablesSection.Write: excludes such a table.
- Loader.DxfModel.Write: excludes such a table.
- SaveLoad.SaveAndLoad: excludes such a table.
- SaveLoad.LoadAndSave: excludes such a table.
- RoundTrip.WrittenModelReadsBack: excludes such a table.
- RoundTrip.LoadSaveLoad: excludes such a table.
- Traversal.StopsAtFirstRefusal: for callbacks that refuse neither a BLOCK nor a POLYLINE; after such a refusal the traversal goes on as `Insert.Run` says.
- The size hint of a table (`maxEntries`) is read and stored; the array it sizes is not modelled.
- Loader.DxfModel.Read: ends with the status `Elsewhere` at a BLOCKS or ENTITIES section; `References` starts from the tree of entities that these hold, but their text is not parsed.
- Loader.DxfModel.ReadSection: is not called for those sections.
- Loader.HeaderSection.SetVariable: a new string record that gets no value is an empty string here, and a null pointer in the source.
- Sections and tables that have been read are kept as values, so sharing of section objects is not modelled.
- Layers registered in the model by LAYER entries and by entities; the base class part of `dimeEntity::handleRecord` and `preWrite`, which is lossy.
- LWPolyline.Entity: `tmpFlags` is the set of the group codes whose bits are set, and coordinates that have not been read are `None`.
- Spline.Entity: the elements of all four arrays are points of which knots and weights use the first coordinate.
- `setControlPoints`, `setWeight`, `countRecords` and the plain getters and setters.
- References.Model: entities are numbered objects in a sequence instead of heap objects, and pointers are their numbers; entities that follow a POLYLINE are not looked into.
- MemHandler.Handler: malloc always succeeds, and 32-bit overflow of a position is not reached, since a block that did not have room is not used again.
- OSM: the text of elements other than an escaped name, colours, layers and the projection; a coordinate is its printed key, and that of an MTEXT is printed from truncated numbers.
- RoundTrip.SeedIsAbove: for largest handles below 2^31 - 1, where the next one is still an int.
- RoundTrip.SavedModelLoads: the same, and without tables that have no title.
- OSM.RunIsSound: for counters below 2^31, the range of the int an id is stored in.
- OSM.WayCompletes: the same.
- OSM.FreshIdsAreFresh: the same.
- OSM.NodeIdsAreDistinct: the same.
- The `BSP_SORTED_SPLIT` and `DIME_FIXBIG` variants, which are not compiled by default.
- `convert_line` and `convert_face` of polylines, arcs, circles, ellipses, bulges, HATCH and the remaining entities.
- `dimeRecordHolder::setRecord`, `findRecord` and `getRecord`, copying of models, `addLayer`.
