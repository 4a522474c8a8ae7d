# A verified model of iRODS client and setup algorithms

This project models the self-contained algorithms of the iRODS command-line
clients and of the server's setup scripts, and proves what they are for.

- **Checksums** (`Bits.dfy`, `Crc64.dfy`): the CRC64-NVMe checksum of the Python
  test library and of the C++ hasher. The two are the same function. The register
  is a linear bijection, from which incremental use, the detection of every burst
  of up to 64 bits and the residue test follow.
- **ilsresc** (`ResourceListing.dfy`, `ChildStrings.dfy`, `ResourceForest.dfy`,
  `TreeDrawing.dfy`, `Ilsresc.dfy`): from pages of query rows through parallel
  vectors, parent normalisation and child strings to the printed tree. Proved are
  what paging may change, when the recursion ends, which resources are shown, and
  that the printed text determines the forest.
- **odbc.ini** (`OdbcIni.dfy`): the parser and the printer, with both round trips.
- **Command lines of iadmin and igroupadmin** (`CommandTokens.dfy`): the tokenizer
  that works in place on the input buffer refines a pure one.
- **Upgrades** (`JsonMerge.dfy`, `DatabaseMigration.dfy`, `ConfigEdits.dfy`,
  `ConfigV3.dfy`, `ConfigV4.dfy`, `ConfigV5.dfy`, `ConfigUpgrade.dfy`,
  `ConfigSurvival.dfy`, `ConfigExample.dfy`,
  `CatalogUpgrade.dfy`): the deep merge and its laws, the settings that survive the
  configuration upgrade from any version to any other, the move of the database
  settings, and the catalog upgrade under failures at any point.
- **Password encodings** (`Passwords.dfy`): encode and decode, scramble and
  unscramble.
- **Loops** (`ByteStream.dfy`, `NiceNumber.dfy`): the chunked copy of istream and
  the comma grouping of iquota in its fixed buffers.

Code that changes things step by step is modelled by methods with loops, classes
and arrays. Each such method is proved against a function, and the laws are proved
about that function.

## Properties that do not hold as stated

These promises hold only under a condition. Each has a counterexample and a lemma
that gives the exact condition; for listings by ids that lemma is about one page.

- A listing by names, as servers before 4.2 send it, does not survive every cut into
  pages: `ResourceListing.NamePagingCanFail`, `ResourceListing.NamePagingExactly`.
- A listing by ids can be taken for one by names when a resource is named like an id:
  `ResourceListing.IdTakenForName`, `ResourceListing.OnePageKeepsExactly`. Over
  several pages it suffices that no page end changes a parent
  (`ResourceListing.PagingDoesNotMatter`), but a later page end can also undo an
  earlier one: `ResourceListing.PageEndUndone`.
- The comments in the version 5 conversion promise that database settings without
  the `db_` prefix are left untouched. The loop moves them onto the previous key's
  new name, or fails: `DatabaseMigration.UnprefixedSettingIsLost`,
  `DatabaseMigration.MigratesExactly`, `DatabaseMigration.UnprefixedCanStay`. A setting whose new name is the section's own
  is lost unless it comes last: `DatabaseMigration.TakenEarlyIsLost`,
  `DatabaseMigration.SectionNameCanBeTaken`.
- The deep merge is not associative when the first two arguments clash:
  `JsonMerge.AssociativityNeedsCompatibility`, `JsonMerge.AssociativeExactly`.
- Drawing from a resource that is its own descendant never ends:
  `ResourceForest.CycleNeverEnds`, `ResourceForest.EndsExactly`.

## Where code and documentation disagree

The model follows the code.

- The description of `calculate_crc64_nvme` says that it returns an integer
  (scripts/irods/lib.py:902-904). It returns eight bytes.
- `encode` and `scramble` reject long passwords by raising `IrodsException`
  (scripts/irods/password_obfuscation.py:90, 220), a name the file does not define.
  Either way the call raises, which the model calls `TooLong`.
- The polynomial written out in words at lib/hasher/src/CRC64NVMEStrategy.cpp:30-34
  lacks the term x^58, which the constant beside it contains. `PolynomialsReflect`
  shows that the constant is the Python polynomial reversed.
- `nested_update` (scripts/irods/lib.py:398-401) uses `collections.Mapping`, which
  Python removed in version 3.10. Where the name exists it is the same merge as
  `update_base`, and one model stands for both.

## Model

| member | source | states |
|---|---|---|
| `Crc64.CalculateCrc64Nvme` | scripts/irods/lib.py:894-919 | the nested loops return the eight big-endian bytes of the CRC; they overflow exactly when it leaves 64 bits, never from a 64-bit start |
| `Crc64.CrcFitsInWord` | scripts/irods/lib.py:907-919 | from a 64-bit starting value the register never leaves 64 bits |
| `Crc64.StepLinear` | scripts/irods/lib.py:911-915 | one bit step is linear over exclusive or |
| `Crc64.StepInjective` | scripts/irods/lib.py:911-915 | one bit step is injective on 64-bit words |
| `Crc64.RegisterConcat` | scripts/irods/lib.py:909-915 | feeding a + b is feeding a and then b |
| `Crc64.Incremental` | scripts/irods/lib.py:899-919 | the CRC of b started from the CRC of a, read back from its bytes, is the CRC of a + b |
| `Crc64.RegisterLinear` | scripts/irods/lib.py:909-915 | the register is linear in starting value and message together |
| `Crc64.Affine` | scripts/irods/lib.py:906-919 | the difference of two checksums depends on the difference of the messages alone |
| `Crc64.BitRunPacks` | scripts/irods/lib.py:909-915 | any run of bits acts as one exclusive or of its packed value followed by as many steps |
| `Crc64.RegisterIsBitRun` | scripts/irods/lib.py:909-915 | the byte loop is the bit-serial register on the message bits |
| `Crc64.BitRunInjective` | scripts/irods/lib.py:909-915 | the same bits never bring two different registers together |
| `Crc64.ShortRunsDiffer` | scripts/irods/lib.py:909-915 | from one register, two different runs of at most 64 bits never meet |
| `Crc64.BurstDetected` | scripts/irods/lib.py:906-919 | equal-length messages that differ only within 64 consecutive bits, at any bit offset, have different checksums |
| `Crc64.ByteBurstDetected` | scripts/irods/lib.py:906-919 | in particular any difference inside eight consecutive bytes is detected |
| `Crc64.ResidueTest` | scripts/irods/lib.py:906-919 | a message followed by eight bytes has the fixed residue as checksum if and only if those bytes are its own checksum, low byte first |
| `Crc64.PolynomialsReflect` | lib/hasher/src/CRC64NVMEStrategy.cpp:36 | the C++ polynomial is the Python polynomial with its 64 bits in opposite order |
| `Crc64.StepReflects` | lib/hasher/src/CRC64NVMEStrategy.cpp:49-54 | a reflected step to the right is an unreflected step to the left |
| `Crc64.HashersAgree` | lib/hasher/src/CRC64NVMEStrategy.cpp:36-58 | the C++ and the Python checksum of the same data are the same number, for every data |
| `ResourceListing.Listing.constructor` | clients/icommands/src/ilsresc.cpp:405-415 | the vectors, the index and the roots start empty |
| `ResourceListing.Listing.ParseGenQueryOut` | clients/icommands/src/ilsresc.cpp:269-337 | one page: the new vectors, index and roots as a function of the old ones and the rows; an error exactly when a row has no name |
| `ResourceListing.Listing.CollectRows` | clients/icommands/src/ilsresc.cpp:280-314 | the row loop, stopping at the first row without a name |
| `ResourceListing.Listing.PushRow` | clients/icommands/src/ilsresc.cpp:288-313 | one row is added to every vector and to the index |
| `ResourceListing.Listing.AllKnown` | clients/icommands/src/ilsresc.cpp:316-325 | true exactly when every non-empty parent is a known name |
| `ResourceListing.Listing.ReplaceParents` | clients/icommands/src/ilsresc.cpp:327-334 | every parent that is a name becomes the id of that resource, in place |
| `ResourceListing.Listing.CollectPages` | clients/icommands/src/ilsresc.cpp:417-431 | the paging loop, with the running offset, parses the pages one after the other |
| `ResourceListing.KeepsExactly` | clients/icommands/src/ilsresc.cpp:316-334 | the end of a page leaves the parents of the rows so far alone if and only if some parent is no name or every parent that is a name is that resource's id already |
| `ResourceListing.OnePageKeepsExactly` | clients/icommands/src/ilsresc.cpp:269-337 | the same for a listing on one page, duplicate names included |
| `ResourceListing.IdTakenForName` | clients/icommands/src/ilsresc.cpp:316-334 | a listing by ids in which a resource named like an id becomes its own child |
| `ResourceListing.PageEndUndone` | clients/icommands/src/ilsresc.cpp:316-334 | over several pages a listing can keep its parents although a page end changes one, because the next changes it back |
| `ResourceListing.KeptPages` | clients/icommands/src/ilsresc.cpp:417-431 | as long as no page end changes a parent, paging only collects the rows, from any point on |
| `ResourceListing.PagingDoesNotMatter` | clients/icommands/src/ilsresc.cpp:281-334 | such a listing gives the same vectors, index and roots in whatever pages it comes, unnamed rows included |
| `ResourceListing.IdPagingDoesNotMatter` | clients/icommands/src/ilsresc.cpp:281-334 | so does every listing by ids in which no resource is named like a parent id |
| `ResourceListing.NamePagingExactly` | clients/icommands/src/ilsresc.cpp:316-334 | a listing by names may be cut into given pages if and only if nothing but roots follows the first page end at which all parents are known names |
| `ResourceListing.NamePagingCanFail` | clients/icommands/src/ilsresc.cpp:316-334 | three rows on two pages whose last child keeps its parent as a name, and on one page does not |
| `ResourceListing.NamesBecomeIds` | clients/icommands/src/ilsresc.cpp:316-334 | on one page a listing by names ends up as the same listing by ids does |
| `ResourceListing.BuildChildList` | clients/icommands/src/ilsresc.cpp:339-365 | each child string lists exactly the rows whose parent is that row, in row order, with empty contexts |
| `ChildStrings.ReadsBackExactly` | scripts/irods/database_upgrade.py:68-71 | split and regular expression recover a list of (name, context) pairs if and only if none contains one of the three marks |
| `ChildStrings.SetString` | lib/core/src/irods_children_parser.cpp:110-164 | the parsing loop assigns the entries into the map one after the other, up to an error or the end, a trailing semicolon included |
| `ChildStrings.ParseSorted` | lib/core/src/irods_children_parser.cpp:110-164 | whatever the string, the map is in strict name order and holds the names of its entries |
| `ChildStrings.ParsesExactly` | lib/core/src/irods_children_parser.cpp:125-144 | an entry is read as a name and a context exactly when it is the bare name or begins with the name and the context between the first pair of braces; it is an error exactly when the first brace is never closed |
| `ChildStrings.ParsesWritten` | lib/core/src/irods_children_parser.cpp:23-39 | a written list is read entry by entry as it was |
| `ChildStrings.ParserRecoversNames` | lib/core/src/irods_children_parser.cpp:110-164 | the parser yields exactly the names that were written, sorted |
| `Ilsresc.ChildStringReadsBack` | scripts/irods/database_upgrade.py:68-71 | the catalog upgrade reads each row of a listing back as exactly its children, in row order |
| `ResourceForest.PathsAgree` | clients/icommands/src/ilsresc.cpp:226-267 | with single parents, two paths down to one resource agree level by level |
| `ResourceForest.PathsAreSimple` | clients/icommands/src/ilsresc.cpp:226-267 | from a resource that is on no cycle, no path visits anything twice |
| `ResourceForest.UnfoldEnds` | clients/icommands/src/ilsresc.cpp:226-267 | below such a resource the recursion ends within as many levels as there are resources |
| `ResourceForest.CycleNeverEnds` | clients/icommands/src/ilsresc.cpp:226-267 | from a resource on a cycle the recursion ends at no depth |
| `ResourceForest.EndsExactly` | clients/icommands/src/ilsresc.cpp:226-267 | drawing from a resource ends if and only if it is not among its own descendants |
| `ResourceForest.PreorderReaches` | clients/icommands/src/ilsresc.cpp:250-265 | what is printed below a resource is exactly what can be reached from it |
| `ResourceForest.PreorderDistinct` | clients/icommands/src/ilsresc.cpp:250-265 | no name is printed twice below one resource |
| `ResourceForest.SiblingsApart` | clients/icommands/src/ilsresc.cpp:255-265 | nothing lies below two children of one resource, unless that resource is on a cycle |
| `ResourceForest.RootsApart` | clients/icommands/src/ilsresc.cpp:452-457 | nothing lies below two roots |
| `ResourceForest.ForestIsPrinted` | clients/icommands/src/ilsresc.cpp:452-457 | drawing from all roots ends, whatever cycles exist elsewhere, and prints each resource below a root once and no other |
| `TreeDrawing.PrintDepth` | clients/icommands/src/ilsresc.cpp:215-223 | the loop writes one piece for each level |
| `TreeDrawing.PrintRescTree` | clients/icommands/src/ilsresc.cpp:226-267 | what the recursion writes after the lead of its caller is the text of the lines of the walk; it fails exactly as the walk fails |
| `TreeDrawing.PrintChildren` | clients/icommands/src/ilsresc.cpp:250-265 | the loop over the children, with its test for the last one, writes the text of their lines |
| `TreeDrawing.PrintRoots` | clients/icommands/src/ilsresc.cpp:452-457 | the roots loop writes the text of the lines of all trees |
| `TreeDrawing.DrawsTree` | clients/icommands/src/ilsresc.cpp:226-267 | the lines of a walk are those of the tree it unfolds, with the same failures |
| `TreeDrawing.DrawsForest` | clients/icommands/src/ilsresc.cpp:452-457 | the same for all roots |
| `TreeDrawing.LineNames` | clients/icommands/src/ilsresc.cpp:243-265 | the names on the lines are the preorder of the tree |
| `TreeDrawing.EveryLine` | clients/icommands/src/ilsresc.cpp:255-265 | every line belongs to a place in the tree, and its depth string is 1 at a level exactly when the ancestor there has a later sibling |
| `TreeDrawing.RebuildsForest` | clients/icommands/src/ilsresc.cpp:226-267 | depths and names of the lines give back every child list, in order |
| `TreeDrawing.BothStylesLegible` | clients/icommands/src/ilsresc.cpp:26-29 | both sets of drawing pieces can be told apart |
| `TreeDrawing.TextReadsBack` | clients/icommands/src/ilsresc.cpp:215-244 | the printed text gives back the depth and name of every line |
| `TreeDrawing.DrawingDeterminesForest` | clients/icommands/src/ilsresc.cpp:215-267 | the text in either style determines the forest |
| `TreeDrawing.OutputDeterminesForest` | clients/icommands/src/ilsresc.cpp:226-267 | what a run of the roots loop wrote determines the forest that it walked |
| `TreeDrawing.TextNeedsPlainRoots` | clients/icommands/src/ilsresc.cpp:255-264 | two different forests with the same text, one of them with a root named like a drawn branch |
| `Ilsresc.AdmittedNames` | plugins/database/src/db_plugin.cpp:813-820 | names that the catalog admits meet the conditions on names, for the drawing and for the child strings |
| `Ilsresc.ChildNamesAre` | clients/icommands/src/ilsresc.cpp:345-359 | the names printRescTree finds in a child string are exactly the children of that row |
| `Ilsresc.GraphIsClosed` | clients/icommands/src/ilsresc.cpp:234-238 | no child is missing from the index, so the missing-node exception is not reached |
| `Ilsresc.GraphSingleParent` | clients/icommands/src/ilsresc.cpp:339-365 | no resource is listed twice, under one parent or under two |
| `Ilsresc.NamedDrawingEnds` | clients/icommands/src/ilsresc.cpp:442-451 | drawing from one named resource ends if and only if it is not among its own descendants |
| `Ilsresc.ForestIsShown` | clients/icommands/src/ilsresc.cpp:452-457 | each resource whose parent chain reaches a root is shown once, and no other, with dangling parents and cycles allowed |
| `Ilsresc.ListingIsShown` | clients/icommands/src/ilsresc.cpp:368-460 | from the pages of any listing with unique names and ids to the drawing: the resources rooted in the parents it ends up with, once each; those are the parents it came with if no page end changes one |
| `Ilsresc.TextDeterminesListing` | clients/icommands/src/ilsresc.cpp:368-460 | from the pages to the text: what is written for such a listing, with names as the catalog admits them, gives back every child list of its rooted resources, in either style |
| `OdbcIni.LoadOdbcIni` | scripts/irods/database_connect.py:24-51 | the line loop returns the dictionary or the error of the line-by-line reading, and names and keys are unique |
| `OdbcIni.TakeLine` | scripts/irods/database_connect.py:31-49 | one line that is not empty opens a section, adds an entry or is refused, as the line-by-line reading says |
| `OdbcIni.StoreEntry` | scripts/irods/database_connect.py:41-45 | an entry goes into the open section, or is refused as a duplicate |
| `OdbcIni.DumpOdbcIni` | scripts/irods/database_connect.py:53-60 | writes the whole dictionary if and only if no value is missing; otherwise stops just before the missing one |
| `OdbcIni.LinesReadBack` | scripts/irods/database_connect.py:53-60 | lines without line ends come back from the text that is made of them |
| `OdbcIni.LoadedWellFormed` | scripts/irods/database_connect.py:24-51 | whatever is loaded is well formed: stripped, no = in keys, no entry of bracket form |
| `OdbcIni.LoadedIsDict` | scripts/irods/database_connect.py:24-51 | whatever is loaded has unique section names and unique keys |
| `OdbcIni.DictReadsBack` | scripts/irods/database_connect.py:24-60 | the lines of a well-formed dictionary are read as that dictionary |
| `OdbcIni.RoundTrip` | scripts/irods/database_connect.py:24-60 | a dictionary is loaded back from its own dump if and only if it is well formed |
| `OdbcIni.LoadNormalises` | scripts/irods/database_connect.py:24-60 | for every text that loads, load, dump, load gives what load gave |
| `CommandTokens.GetInput` | clients/icommands/src/iadmin.cpp:1153-1211 | the in-place loop leaves exactly the tokens of the pure tokenizer in the slots, apart from each other; slots beyond the limit and other characters are untouched; it reports too many if and only if the limit is reached before the newline, or without one before the last character |
| `CommandTokens.Cut` | clients/icommands/src/iadmin.cpp:1160-1210 | the same for the character loop alone |
| `CommandTokens.Take` | clients/icommands/src/iadmin.cpp:1170-1209 | one character that is not the newline keeps the loop on course |
| `CommandTokens.TooManyOnALine` | clients/icommands/src/iadmin.cpp:1161-1164 | with a newline too many means more tokens than slots |
| `CommandTokens.ClearSlots` | clients/icommands/src/iadmin.cpp:1154-1156 | every slot below the limit is emptied, the others stay |
| `CommandTokens.EndAt` | clients/icommands/src/iadmin.cpp:1160-1210 | ending a token writes one NUL and one slot |
| `CommandTokens.StoreToken` | clients/icommands/src/iadmin.cpp:1160-1210 | a NUL written later never disturbs an earlier token |
| `CommandTokens.NextCharacter` | clients/icommands/src/iadmin.cpp:1160-1210 | a character that ends no token keeps the loop on course |
| `CommandTokens.EndToken` | clients/icommands/src/iadmin.cpp:1160-1210 | a character that ends a token stores exactly the next token |
| `CommandTokens.AtNewline` | clients/icommands/src/iadmin.cpp:1160-1210 | the newline ends the last token, after which all tokens are stored |
| `CommandTokens.WordsOfJoined` | clients/icommands/src/igroupadmin.cpp:146-196 | written tokens joined by spaces are split into their texts |
| `CommandTokens.QuotingRoundTrip` | clients/icommands/src/igroupadmin.cpp:146-196 | any list of tokens, each bare or in a quote it does not contain, is tokenized back to itself |
| `CommandTokens.QuotedLineFillsSlots` | clients/icommands/src/igroupadmin.cpp:146-196 | a call on such a line leaves those texts in the slots and nothing in the others |
| `JsonMerge.UpdateBase` | scripts/irods/upgrade_configuration.py:239-245 | the loop gives the same result in whatever order the keys come |
| `JsonMerge.MergeFields` | scripts/irods/lib.py:398-401 | key by key: what a merge contains, and exactly when it goes through |
| `JsonMerge.MergeIntoEmpty` | scripts/irods/upgrade_configuration.py:242 | merging into an empty dictionary copies the update |
| `JsonMerge.MergeLookup` | scripts/irods/upgrade_configuration.py:239-245 | the value at every path after a merge, in terms of the two arguments |
| `JsonMerge.MergeDefined` | scripts/irods/upgrade_configuration.py:239-245 | a merge raises if and only if somewhere a non-empty dictionary meets something else |
| `JsonMerge.MergeIdempotent` | scripts/irods/upgrade_configuration.py:273-279 | merging the same update twice changes nothing more |
| `JsonMerge.MergeAssociative` | scripts/irods/upgrade_configuration.py:239-245 | merging b and then c is merging the merge of b and c, failures included, when b merges at all |
| `JsonMerge.ClashWithMerge` | scripts/irods/upgrade_configuration.py:239-245 | what clashes with a merge clashes with the update, or with the base where the update does not cover it |
| `JsonMerge.AssociativeExactly` | scripts/irods/upgrade_configuration.py:239-245 | the two orders agree if and only if the first two are compatible, or the third does not merge into the second or the first, or it leaves a clash of the first two uncovered |
| `JsonMerge.MergeAgain` | scripts/irods/upgrade_configuration.py:285 | what comes from a merge over the template gains nothing from merging it over the template again |
| `JsonMerge.AssociativityNeedsCompatibility` | scripts/irods/upgrade_configuration.py:239-245 | three dictionaries for which the orders differ |
| `ConfigEdits.ApplyKeeps` | scripts/irods/upgrade_configuration.py:223-225 | an edit keeps every setting that it does not name |
| `DatabaseMigration.MigrateDatabase` | scripts/irods/upgrade_configuration.py:372-391 | the loop over the database keys, with its variable that outlives a turn |
| `DatabaseMigration.MovePops` | scripts/irods/upgrade_configuration.py:377-387 | every key that is visited is taken out of the section, with or without the prefix |
| `DatabaseMigration.MoveSettles` | scripts/irods/upgrade_configuration.py:377-387 | when the first key has the prefix and none is bound for the section itself, the loop does not fail and each name gets the value of the last key that goes to it, or keeps its own |
| `DatabaseMigration.Outcome` | scripts/irods/upgrade_configuration.py:377-387 | the same when the last key takes the name of the section |
| `DatabaseMigration.LastTakesSection` | scripts/irods/upgrade_configuration.py:386-387 | a last key bound for the name of the section replaces it, with all others moved as before |
| `DatabaseMigration.TakenEarlyIsLost` | scripts/irods/upgrade_configuration.py:386-387 | a key bound for that name before the last is not there in the end |
| `DatabaseMigration.MigratesExactly` | scripts/irods/upgrade_configuration.py:372-391 | the migration does what its comments promise if and only if the names fit: the first key has the prefix, the last key to go to a name has the value that belongs there, only the last key takes the name of the section, with something in it, and it holds all settings without the prefix |
| `DatabaseMigration.PrefixedFit` | scripts/irods/upgrade_configuration.py:372-391 | with the prefix on every key the names fit if and only if no two settings with different values, and no other entry, want the same name, and the name of the section is taken by the last key only |
| `DatabaseMigration.UnprefixedCanStay` | scripts/irods/upgrade_configuration.py:375-387 | a setting without the prefix can survive, when the last key takes the name of the section and brings it along |
| `DatabaseMigration.SectionNameCanBeTaken` | scripts/irods/upgrade_configuration.py:386-391 | a section named like the new name of its one setting is migrated as promised |
| `DatabaseMigration.UnprefixedOverwrites` | scripts/irods/upgrade_configuration.py:377-387 | a setting without the prefix replaces the one before it, and stops the upgrade when it comes first |
| `DatabaseMigration.UnprefixedSettingIsLost` | scripts/irods/upgrade_configuration.py:375-387 | a setting without the prefix overwrites another one or stops the upgrade, depending on the key order |
| `ConfigUpgrade.DecimalParses` | scripts/irods/upgrade_configuration.py:16-19 | a decimal number is parsed back |
| `ConfigUpgrade.TagReadsBack` | scripts/irods/upgrade_configuration.py:16-19 | a version tag is read back as its number, with any number of digits |
| `ConfigUpgrade.UpgradeConfigFile` | scripts/irods/upgrade_configuration.py:417-427 | from any version: refuses a downgrade, does nothing at the target, and otherwise commits a configuration tagged exactly with the target version |
| `ConfigUpgrade.RunSchemaUpdate` | scripts/irods/upgrade_configuration.py:429-503 | one step tags the configuration with the next version |
| `ConfigV3.V3Keeps` | scripts/irods/upgrade_configuration.py:433-485 | the step to version 3 keeps every setting it does not name |
| `ConfigV3.V3Moves` | scripts/irods/upgrade_configuration.py:440-480 | after the step to version 3 each PAM option, the Kerberos name and the catalog host are found at their new places |
| `ConfigV3.V3TakesDatabase` | scripts/irods/upgrade_configuration.py:482-485 | a provider has its old database file under the name of its technology, beside the sections it had; a consumer has what it had |
| `ConfigV4.V4Keeps` | scripts/irods/upgrade_configuration.py:238-268 | the conversion to version 4 keeps every setting it does not name, over any template |
| `ConfigV5.V5Keeps` | scripts/irods/upgrade_configuration.py:270-393 | the conversion to version 5 keeps every setting it does not name, over any template and environment |
| `ConfigV4.AbsorbKeeps` | scripts/irods/upgrade_configuration.py:184-221 | the two host files touch nothing but the two lists they are absorbed into |
| `ConfigSurvival.StepKeeps` | scripts/irods/upgrade_configuration.py:429-503 | one step, of any schema, keeps every setting that it does not rename, remove, derive, translate or absorb |
| `ConfigSurvival.SettingsSurvive` | scripts/irods/upgrade_configuration.py:422-425 | from any version to any other every such setting keeps its value, whatever template, environment and files hold |
| `ConfigEdits.RenameCarries` | scripts/irods/upgrade_configuration.py:223-225 | a rename in the middle of a series carries the value to the new name |
| `ConfigSurvival.RenamedSettingsCarryOver` | scripts/irods/upgrade_configuration.py:256-258 | the renamed number of executors reaches version 4 and every later version under its new name, over any template default; so does the sleep time from version 3, and from before it is 30 |
| `ConfigSurvival.MovedSettingsArrive` | scripts/irods/upgrade_configuration.py:440-480 | from any version before 3 to any from 3 on, the moved settings are found at their new places |
| `ConfigSurvival.PolicyReachesFour` | scripts/irods/upgrade_configuration.py:254 | the API policy reaches version 4 under its new name, from any version before |
| `ConfigSurvival.DatabaseIsMigrated` | scripts/irods/upgrade_configuration.py:358-391 | from any version before 5, the database sections of template and configuration, merged, reach version 5 and every later version as the migration leaves them; from before version 3 they include the old database file |
| `ConfigSurvival.DatabaseMovesAsPromised` | scripts/irods/upgrade_configuration.py:358-391 | they end up as promised if and only if the names fit, for every key order |
| `ConfigExample.UpgradeCanSucceed` | scripts/irods/upgrade_configuration.py:422-425 | a configuration, a site and a key order for which the upgrade from 3 to 5 goes through, so the conditions above can be met |
| `ConfigExample.OldUpgradeCanSucceed` | scripts/irods/upgrade_configuration.py:422-425 | the same from 2 to 5, for a provider with a database file |
| `CatalogUpgrade.Connection.Commit` | scripts/irods/database_interface.py:50 | a commit makes the working state the committed one |
| `CatalogUpgrade.Connection.Rollback` | scripts/irods/database_interface.py:53 | a rollback gives the committed state back |
| `CatalogUpgrade.Connection.RunUpdate` | scripts/irods/database_upgrade.py:14-18 | one step leads to the next version, or raises for an unsupported version or a failing statement |
| `CatalogUpgrade.Connection.UpdateCatalogSchema` | scripts/irods/database_interface.py:38-58 | the loop leaves the committed catalog that the run function says, with nothing uncommitted, for every schedule of faults |
| `CatalogUpgrade.RunLeavesPrefix` | scripts/irods/database_interface.py:41-58 | whatever fails wherever, the committed catalog is the starting one after the steps up to its version, in order and once each; a normal return if and only if that is the target |
| `CatalogUpgrade.FaultlessRun` | scripts/irods/database_interface.py:41-58 | without faults a run goes through if and only if every step can be executed |
| `CatalogUpgrade.RunsLeavePrefix` | scripts/irods/database_interface.py:41-58 | the same after any number of runs |
| `CatalogUpgrade.ResumeIsUninterrupted` | scripts/irods/database_upgrade.py:290-293 | any failed runs followed by a successful one leave what a single uninterrupted run leaves |
| `Passwords.TurnTurn` | scripts/irods/password_obfuscation.py:77-83 | two turns of the wheel undo each other if and only if together they go round it, or the character is not on it |
| `Passwords.EncodePassword` | scripts/irods/password_obfuscation.py:88-162 | the whole of encode, in terms of the character function |
| `Passwords.EncodeLoop` | scripts/irods/password_obfuscation.py:130-150 | the loop with its running shift computes the character function |
| `Passwords.DecodePassword` | scripts/irods/password_obfuscation.py:43-85 | the whole of decode, including a sequence letter outside the list |
| `Passwords.DecodeLoop` | scripts/irods/password_obfuscation.py:53-83 | the loop, starting at shift 15 and stopping at a NUL, computes the character function |
| `Passwords.TurnBack` | scripts/irods/password_obfuscation.py:77-83 | the wheel arithmetic of decode is a turn back |
| `Passwords.CharsRoundTrip` | scripts/irods/password_obfuscation.py:66-83 | from the same place in the shift cycle, decoding gives the text up to its first NUL back if and only if the salts agree or nothing was turned |
| `Passwords.EncodeDecode` | scripts/irods/password_obfuscation.py:43-162 | encode refuses exactly the passwords that are too long; decode of encode, for every pair of user ids and every time, is the text up to its first NUL if and only if the salts agree on the wheel or nothing could be turned |
| `Passwords.DecodesOwnEncoding` | scripts/irods/password_obfuscation.py:43-162 | with the same user id it always is |
| `Passwords.EncoderRing` | scripts/irods/password_obfuscation.py:165-181 | the ring has 64 bytes, and exists if and only if the first hundred characters of the key are ASCII |
| `Passwords.ScramblePassword` | scripts/irods/password_obfuscation.py:218-245 | the whole of scramble, in terms of the character function |
| `Passwords.ScrambleLoop` | scripts/irods/password_obfuscation.py:228-243 | the loop with its ring index and chain computes the character function |
| `Passwords.UnscramblePassword` | scripts/irods/password_obfuscation.py:184-215 | the whole of unscramble, including strings without the prefix |
| `Passwords.UnscrambleLoop` | scripts/irods/password_obfuscation.py:198-213 | the loop with its ring index and chain computes the character function |
| `Passwords.CharsUnscramble` | scripts/irods/password_obfuscation.py:203-213 | unscrambling undoes scrambling from any place on the ring and any chain value |
| `Passwords.CharsScramble` | scripts/irods/password_obfuscation.py:233-243 | scrambling undoes unscrambling likewise |
| `Passwords.ScrambleUnscramble` | scripts/irods/password_obfuscation.py:184-245 | scramble succeeds if and only if the length and the key allow it, and unscramble then gives the text back, for every key, prefix and chaining mode |
| `Passwords.UnscrambleScramble` | scripts/irods/password_obfuscation.py:184-245 | every prefixed string of allowed length is the scrambled form of what it unscrambles to |
| `ByteStream.Source.Read` | clients/icommands/src/istream.cpp:232 | a read yields what is left, up to the amount asked for, and says whether the data ran out |
| `ByteStream.Sink.Write` | clients/icommands/src/istream.cpp:233 | a write appends all bytes or turns the stream bad |
| `ByteStream.Move` | clients/icommands/src/istream.cpp:263-267 | one read and one write copy a run of bytes |
| `ByteStream.StreamAll` | clients/icommands/src/istream.cpp:230-258 | code 0 only when everything was copied, and always on reliable streams; what was written is always a prefix of what was read |
| `ByteStream.CopyCount` | clients/icommands/src/istream.cpp:260-274 | the counted reads and writes, with the bytes read so far |
| `ByteStream.StreamCount` | clients/icommands/src/istream.cpp:260-292 | on reliable streams exactly the first count bytes, or all there are, and code 0 if and only if there were enough |
| `ByteStream.StreamBytes` | clients/icommands/src/istream.cpp:220-293 | all of stream_bytes, for every count and for streams that fail |
| `NiceNumber.FirstComma` | clients/icommands/src/iquota.cpp:33-40 | the digits before the first comma, with or without a sign |
| `NiceNumber.LeftIsRight` | clients/icommands/src/iquota.cpp:34-59 | counting from the left with that phase is grouping from the right |
| `NiceNumber.GroupedReadsBack` | clients/icommands/src/iquota.cpp:45-59 | deleting the commas gives the digits back |
| `NiceNumber.GroupedLength` | clients/icommands/src/iquota.cpp:53-58 | one comma for every three digits after the first one to three |
| `NiceNumber.CommaPlaces` | clients/icommands/src/iquota.cpp:53-58 | counted from the end, every fourth character is a comma and no other is |
| `NiceNumber.NiceMeaning` | clients/icommands/src/iquota.cpp:29 | deleting commas gives the number back, and the result with its NUL fits the 40 bytes if and only if the number has at most 30 characters |
| `NiceNumber.LoopGroups` | clients/icommands/src/iquota.cpp:45-59 | on a text with at most a leading minus the loop writes the grouped text and the part before the first comma, and counts the commas |
| `NiceNumber.FitsExactly` | clients/icommands/src/iquota.cpp:29-30 | such a text fits both buffers if and only if it has at most 30 characters |
| `NiceNumber.FillBuffers` | clients/icommands/src/iquota.cpp:41-61 | for any text that fits, the buffers hold what the loop writes, with their terminators |
| `NiceNumber.CopyWithCommas` | clients/icommands/src/iquota.cpp:41-59 | the same for the loop alone, inside both buffers |
| `NiceNumber.CopyOne` | clients/icommands/src/iquota.cpp:46-58 | one turn of the loop on both buffers |
| `NiceNumber.LeadIsRoughSize` | clients/icommands/src/iquota.cpp:97-103 | the number in parentheses is the size in units of 1000 to the number of commas, rounded towards zero |
| `NiceNumber.PrintNice` | clients/icommands/src/iquota.cpp:25-105 | all that is printed for any text that fits: padding, grouped text, rough size, units |

## Left out

- ConfigUpgrade.UpgradeConfigFile: the version a configuration starts from, its schema name and the target are parameters; so are the host look-up and the files that the step to version 3 reads.
- ConfigUpgrade.RunSchemaUpdate: in the step to version 3 a `catalog_database_type` that is not a text counts as a failure, while Python would use some other values as keys.
- ConfigSurvival.SettingsSurvive: is about settings that are not themselves dictionaries; for a dictionary it applies to each setting inside.
- JsonMerge.UpdateBase: dictionaries are values, so sharing between the template, the configuration and the result is not captured; the order of keys is arbitrary instead.
- ConfigUpgrade.TagReadsBack: only tags of the form that the code writes are parsed; other spellings that Python's int() accepts are not part of this model.
- NiceNumber.PrintNice: requires that what the loop writes fits the two fixed buffers and the padding its 40-character literal; beyond that the behaviour of the C code is undefined.
- CommandTokens.GetInput: starts after the line has been read into the buffer; end of file, the prompt and the messages are left out, and the loops of iadmin and igroupadmin are one model.
- Crc64.HashersAgree: boost::crc_basic is modelled from its documented bit-serial algorithm, and the base64 form of the digest is left out.
- TreeDrawing.TextReadsBack: needs names without colons and line ends, and root names that do not begin like a drawn branch; `TreeDrawing.TextNeedsPlainRoots` shows two forests with one text otherwise, and `Ilsresc.AdmittedNames` that the names the catalog admits meet this.
- TreeDrawing.PrintRescTree: carries a bound on the depth so that it ends; `ResourceForest.EndsExactly` says when a bound exists. Output written before an exception is not kept.
- ResourceListing.PagingDoesNotMatter: over several pages the condition is sufficient and not necessary; `ResourceListing.PageEndUndone` shows a listing beyond it.
- Ilsresc.ListingIsShown: assumes unique names and ids, no child-string marks in names, and ids that are not empty unless no page end changes a parent.
- Passwords.EncoderRing: MD5 is a parameter of which only the length of the digest is known.
- CatalogUpgrade.Connection.RunUpdate: the SQL of the individual steps is a parameter, a deterministic function on the rest of the catalog.
- ByteStream.Source.Read: reads at the end of the data and failing reads are modelled; streams that block or deliver short reads without failing are not, since istream::read does not do so.
- Connections, authentication, rc* calls, usage text and option parsing of the clients.
- File access, backups, renaming of absorbed files, prompts, process control, TLS generation, and the conversion of configuration files older than JSON.
- get_odbc_entry and the synchronisation of .odbc.ini around the parser and the printer.
- The children_parser operations other than str and set_string.
