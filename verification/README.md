# Downloads organizer: categorisation and move/restore engine

This project models, in Dafny, the engine of the Downloads folder organizer
(`tasks/downloads_organizer.py`). It covers four parts:

- **The category table.** Thirteen category names, each with its list of
  lower-case file suffixes. `Others` comes last and has an empty list.
- **Classification.** The lower-cased pathlib suffix of a file name is
  matched against the table; the first category that lists it wins, and
  `Others` is the fallback.
- **Organize.** The visible regular files directly in the root are counted
  per category. In a real run they are then moved into their category
  folders. A file never overwrites an existing entry: on a collision it takes
  the first free name `stem_k.ext`.
- **Restore.** Every regular file inside a root directory that carries a
  category name is moved back to the root, under its own name if that is
  free and otherwise under the first free `stem_restored_k.ext`. Each
  category folder left empty is then removed.

## How the file system is modelled

The file system is a value:

- A `Node` is a regular file (`File(blob)`) or a directory (`Dir(entries)`).
- A `Folder` is a map from names to nodes.
- The root path is `Missing` or `Exists(node)`.

Everything the file system decides is a parameter:

- **Directory enumeration order.** `iterdir` becomes a sequence of names.
  `IsListing` requires it to list every entry of the directory exactly once.
  The outer restore enumeration and the snapshot of files to organize are
  both taken once, at the start. A folder's entries are listed when that
  folder's turn comes.
- **Move refusals.** A `shutil.move` the file system refuses is an input:
  a set of names for organize, and a set of (folder, name) pairs for restore.
- **Removal refusals.** An `rmdir` the file system refuses is a set of
  folder names. The source catches that error and ignores it.

"No data lost" is stated with `Inventory`, the multiset of file contents held
by the root and by its direct subdirectories. The engine never rewrites
anything deeper, so two levels are enough.

Modules:

| module | contents |
|---|---|
| `Names` | pathlib `suffix`/`stem`, the hidden-file test, `str.lower` on the characters that matter, and counter numerals |
| `Categories` | the table, `Classify` and `CategoryOf`, table well-formedness, and the classification lemmas |
| `Conflicts` | collision resolution shared by organize (`_k`) and restore (`_restored_k`) |
| `FileSystem` | nodes, listings, counting, and the inventory |
| `Organizer` | `create_category_folders`, `move_file`, the organize loop, `organize_downloads`, and the summary filter |
| `OrganizeProperties` / `OrganizeTheorems` | per-step and whole-call properties of organize |
| `Restorer` | `restore_files`: one file, one folder, the outer loop, and the call |
| `RestoreProperties` / `RestoreTheorems` | per-step and whole-call properties of restore |
| `RoundTrip` | organize followed by restore gives back the original root |
| `Scenarios` | concrete classifications and collision names |

## Where the model follows the code over its documentation

- **Restore also empties pre-existing folders.** Restore works on every root
  directory whose name is a category, not only on folders that organize
  created (lines 196-197). So it also empties and removes such folders that
  the user made.
- **A root that is not a directory raises.** When the root exists but is not
  a directory, both the organize and restore enumerations raise. Organize
  checks only `exists()` (line 119), and restore checks nothing. The model
  gives these cases their own results: `RootNotADirectory` and
  `RestoreRaised`.
- **All folders are created up front.** `create_category_folders` creates
  every non-`Others` folder that is missing, whatever the files are
  (lines 80-85). `Others` is created only on first use, by `move_file`
  (line 96).
- **Category-named regular files.** A regular file in the root named like a
  category, for example `Images` with no suffix, blocks the creation of that
  folder, because `exists()` is true.
  - Moves into that category fail while that file is still in the root:
    `mkdir(exist_ok=True)` raises on a non-directory.
  - The file itself is organized into `Others`, which frees the name. Which
    moves fail therefore depends on the listing order
    (`Scenarios.BlockedByCategoryFile`, `Scenarios.UnblockedByListingOrder`).
  - A regular file named `Others` can never be moved.
  - `MoveFileSpec` states these failures exactly.
- **Restore can reuse a removed folder's name.** During restore, once a
  category folder has been removed, a restored file may take its name. This
  is why `FolderOutcome` allows the name to hold a regular file afterwards.

## Model

| member | source | states |
|---|---|---|
| Categories.TableWellFormed | tasks/downloads_organizer.py:25-39 | no suffix is listed under two categories; no category name appears twice; `Others` is last and has an empty list; every other entry has a different name |
| Categories.FirstMatch | tasks/downloads_organizer.py:70-74 | the index of the first table entry from `from` on whose list holds the suffix, or -1 exactly when none does; every earlier entry's list lacks it |
| Categories.Classify | tasks/downloads_organizer.py:66-74 | the result is always a key of the table |
| Categories.ClassifyListed | tasks/downloads_organizer.py:66-74 | a suffix lands in listed category i exactly when i's list holds its lower-case form, so first-match order never decides anything |
| Categories.ClassifyFallback | tasks/downloads_organizer.py:66-74 | the result is `Others` exactly when no list holds the lower-cased suffix |
| Categories.ClassifyIgnoresCase | tasks/downloads_organizer.py:68 | a suffix and its lower-case form get the same category |
| Categories.CategoryOf | tasks/downloads_organizer.py:148-149 | the category of a file name is taken from its suffix and is a table key |
| Names.Suffix | tasks/downloads_organizer.py:148 | pathlib's suffix, by the rule of Python up to 3.13: "" without a dot that is neither first nor last; otherwise a dot followed by a dot-free text |
| Names.Stem | tasks/downloads_organizer.py:103 | pathlib's stem, by the same rule: the name itself when there is no suffix, otherwise a non-empty proper prefix; `StemSuffixSplit` shows stem followed by suffix is the name |
| Names.IsHidden | tasks/downloads_organizer.py:131 | a name is hidden when it starts with a dot; `SelectFiles` shows exactly such files are never organized |
| Names.Lower | tasks/downloads_organizer.py:68 | the model of `str.lower`: each ASCII capital and KELVIN SIGN lowered and every other character kept, so the length is kept (`str.lower` itself may lengthen a text, as U+0130 shows); `LowerIdempotent` shows lowering twice changes nothing |
| Names.StemSuffixSplit | tasks/downloads_organizer.py:103-104 | stem followed by suffix is the whole name |
| Names.DecimalInjective | tasks/downloads_organizer.py:104 | different counters render as different numerals |
| Names.Decimal | tasks/downloads_organizer.py:104 | the numeral `str(counter)` renders: only digits, at least one, two or more exactly from 10 on; `ParseDecimalRoundTrip` reads it back as the counter |
| Conflicts.CandidateInjective | tasks/downloads_organizer.py:103-105 | different counters give different collision names |
| Conflicts.Candidate | tasks/downloads_organizer.py:103-104 | the name `stem_k.ext` (organize) or `stem_restored_k.ext` (restore); `CandidateIsNotName` shows it is longer than the name and `CandidateInjective` that counters give distinct names |
| Conflicts.Probe | tasks/downloads_organizer.py:102-106 | the loop from counter k on stops at the first free candidate, within as many steps as the folder has entries, with every candidate before it taken |
| Conflicts.CandidatesBound | tasks/downloads_organizer.py:102-106 | when the name and its first n alternatives are all taken, the folder holds more than n entries |
| Conflicts.ResolveIndex | tasks/downloads_organizer.py:100-106 | the counter is 0 exactly when the name is free; it is at most the number of taken names; its candidate is free and every smaller candidate is taken |
| Conflicts.Resolve | tasks/downloads_organizer.py:99-106 | the chosen name is never taken; it is the file's own name when that is free, and a longer name otherwise |
| Conflicts.ResolveIndexIsLeastFree | tasks/downloads_organizer.py:100-106 | a free counter with all smaller ones taken is exactly the one chosen |
| Organizer.SelectFiles | tasks/downloads_organizer.py:130-131 | a name is selected exactly when it is enumerated and is a regular file whose name does not start with a dot |
| OrganizeProperties.SelectFilesDistinct | tasks/downloads_organizer.py:130-131 | the snapshot of a listing names each file once |
| Organizer.CreateFolders | tasks/downloads_organizer.py:80-86 | existing entries stay; every listed name other than `Others` ends up present; new entries are empty folders under such names; the created list names exactly the new entries |
| Organizer.CreateCategoryFolders | tasks/downloads_organizer.py:76-88 | existing entries stay; every non-`Others` category name ends up present; new entries are empty folders named after such categories; the created list names exactly the missing ones |
| Organizer.MoveFile | tasks/downloads_organizer.py:90-115 | one `move_file` call; `MoveFileSpec` states exactly when it succeeds and what either outcome changes, `MoveFileKeepsInventory` that it loses no content |
| Organizer.MoveFileSpec | tasks/downloads_organizer.py:90-115 | success happens exactly when the source is still a regular file, the move is not refused and no non-directory holds the category name; success removes exactly the source and adds exactly the file to the folder, under a name the folder did not hold (its own when free); failure changes no existing entry and adds at most the empty folder |
| Organizer.MoveFileKeepsInventory | tasks/downloads_organizer.py:90-115 | a move attempt loses and duplicates no file content |
| OrganizeProperties.MoveFileKeepsFolders | tasks/downloads_organizer.py:90-115 | a move attempt never removes or overwrites anything inside any folder |
| Organizer.InitialStats | tasks/downloads_organizer.py:142 | every category starts at count 0 |
| Organizer.Step | tasks/downloads_organizer.py:147-159 | each file adds one to the count of its category, in a dry run and a real run alike |
| Organizer.Attempt | tasks/downloads_organizer.py:156-159 | each move attempt adds one to exactly one of moved and failed |
| Organizer.OrganizeLoop | tasks/downloads_organizer.py:147-159 | the loop over the snapshot keeps the counts keyed by the table; `OrganizeLoopCount`, `OrganizeLoopCounters`, `OrganizeLoopInventory` and `OrganizeLoopFrame` state what it does |
| Organizer.StartRoot | tasks/downloads_organizer.py:137-139 | the root a run starts from: the given one in a dry run, the one with the category folders created in a real run; `RealStart` states the latter |
| Organizer.Organize | tasks/downloads_organizer.py:117-163 | one `organize_downloads` call; `OrganizeEarlyExits`, `OrganizeStats`, `OrganizeCounters`, `OrganizeFrame` and `OrganizeKeepsInventory` state its outcome |
| OrganizeProperties.StepEffect | tasks/downloads_organizer.py:151-159 | a dry step changes only the counts; a real step has exactly the effect of `move_file` and counts its outcome |
| OrganizeProperties.OrganizeLoopCount | tasks/downloads_organizer.py:147-151 | the loop adds to each category's count the number of files of that category |
| OrganizeProperties.OrganizeLoopTally | tasks/downloads_organizer.py:147-151 | the loop adds the number of files to the sum of the counts |
| OrganizeProperties.OrganizeLoopCounters | tasks/downloads_organizer.py:147-159 | a real loop adds one to moved or failed per file; a dry loop changes neither the root nor the counters |
| OrganizeProperties.OrganizeLoopInventory | tasks/downloads_organizer.py:147-159 | the loop keeps the inventory |
| OrganizeProperties.OrganizeLoopFrame | tasks/downloads_organizer.py:147-159 | entries that are not processed and not named after a category are unchanged; new names are category names; nothing inside a folder is lost |
| OrganizeProperties.OrganizeLoopTallies | tasks/downloads_organizer.py:153-159 | when no category-named entry is a non-directory, failed counts the refused moves and moved counts the rest |
| OrganizeProperties.OrganizeLoopPlacement | tasks/downloads_organizer.py:153-159 | when no category-named entry is a non-directory, a file stays in the root exactly when its move was refused, and is then unchanged; otherwise its content sits in its category folder |
| OrganizeProperties.SummaryLinesExact | tasks/downloads_organizer.py:173-175 | the summary lists exactly the categories with a positive count, each with its count |
| Organizer.SummaryLines | tasks/downloads_organizer.py:173-175 | the categories the summary prints with their counts; `SummaryLinesExact` shows they are exactly those with a positive count |
| OrganizeTheorems.OrganizeEarlyExits | tasks/downloads_organizer.py:117-135 | the call stops early exactly on a missing root, a root that is not a directory, or no visible regular file; it then changes nothing |
| OrganizeTheorems.OrganizeStats | tasks/downloads_organizer.py:141-151 | the counts cover exactly the table; each category counts exactly its organizable files; they add up to the number of organizable files |
| OrganizeTheorems.OrganizeCounters | tasks/downloads_organizer.py:143-159 | in a real run moved + failed is the number of organizable files; a dry run moves nothing, fails nothing and leaves the root as it was |
| OrganizeTheorems.OrganizeFailures | tasks/downloads_organizer.py:143-159 | failed is the number of organizable files whose move was refused, given that no category-named entry is a non-directory |
| OrganizeTheorems.DryRunChangesNothing | tasks/downloads_organizer.py:126-159 | a dry run leaves any root exactly as it was |
| OrganizeTheorems.DryRunPreviewsRealRun | tasks/downloads_organizer.py:117-159 | a dry run and a real run stop early or complete together, and report the same counts |
| OrganizeTheorems.OrganizeKeepsInventory | tasks/downloads_organizer.py:117-163 | a completed call loses and duplicates no file content |
| OrganizeTheorems.RealStart | tasks/downloads_organizer.py:137-139 | a real run starts from the root plus empty category folders only |
| OrganizeTheorems.OrganizeFrame | tasks/downloads_organizer.py:129-159 | hidden files, subdirectories and other untouched entries stay; the only new names are category folders; every missing up-front folder exists afterwards; nothing inside a folder is overwritten |
| OrganizeTheorems.OrganizeOutcomes | tasks/downloads_organizer.py:147-159 | when no category-named entry is a non-directory, each organizable file stays in the root, unchanged, exactly when its move was refused, and otherwise sits in its category folder |
| OrganizeTheorems.FinalRunCounts | tasks/downloads_organizer.py:142-151 | the final count of a category is the number of its organizable files |
| OrganizeTheorems.FinalRunTally | tasks/downloads_organizer.py:142-151 | the final counts add up to the number of organizable files |
| RestoreProperties.RestoreFileSpec | tasks/downloads_organizer.py:198-213 | a regular file whose move is accepted leaves its folder and appears in the root under a name the root did not hold (its own when free), and is counted; nothing else changes |
| Restorer.RestoreFile | tasks/downloads_organizer.py:199-216 | one pass of the inner loop; `RestoreFileSpec`, `RestoreFileInventory` and `RestoreFileNames` state its effect |
| Restorer.RestoreEntries | tasks/downloads_organizer.py:198-216 | the inner loop over a folder's entries; `RestoreEntriesFrame`, `RestoreEntriesShape`, `RestoreEntriesCount` and `RestoreEntriesCounts` state its effect |
| Restorer.RemoveIfEmpty | tasks/downloads_organizer.py:218-224 | removal of an empty category folder, a refused removal ignored; `RemoveIfEmptyCounts` shows it loses nothing |
| Restorer.RestoreFolder | tasks/downloads_organizer.py:197-224 | one category folder's turn; `RestoreFolderShape`, `RestoreFolderCount` and `RestoreFolderCounts` state its effect |
| Restorer.RestoreLoop | tasks/downloads_organizer.py:196-224 | the outer loop over the root's entries; `RestoreLoopFrame`, `RestoreLoopShape` and `RestoreLoopCount` state its effect |
| Restorer.Restore | tasks/downloads_organizer.py:190-226 | one `restore_files` call; `RestoreRaisesOn`, `RestoreFrame`, `RestoreFolders` and `RestoreCount` state its outcome |
| RestoreProperties.RestoreFileInventory | tasks/downloads_organizer.py:198-216 | one restore step keeps the inventory |
| RestoreProperties.RestoreFileNames | tasks/downloads_organizer.py:201-212 | one restore step adds exactly as many root files as it counts |
| RestoreProperties.RestoreEntriesFrame | tasks/downloads_organizer.py:198-216 | the inner loop touches no other root entry, keeps the folder a directory, and adds only regular files |
| RestoreProperties.RestoreEntriesShape | tasks/downloads_organizer.py:198-216 | after the inner loop the folder holds everything except the movable files among the names processed |
| RestoreProperties.RestoreEntriesCount | tasks/downloads_organizer.py:198-213 | the inner loop counts the movable files among the names processed |
| RestoreProperties.RestoreEntriesCounts | tasks/downloads_organizer.py:198-216 | the inner loop keeps the inventory and adds one root file per count |
| RestoreProperties.RemoveIfEmptyCounts | tasks/downloads_organizer.py:218-224 | removing an empty folder keeps the inventory and the root's files |
| RestoreProperties.RestoreFolderFrame | tasks/downloads_organizer.py:196-224 | a folder's turn touches no other entry and adds only regular files |
| RestoreProperties.RestoreFolderShape | tasks/downloads_organizer.py:196-224 | after a folder's turn, the folder is gone exactly when it kept nothing and the removal was accepted; otherwise it holds exactly its subdirectories and refused files |
| RestoreProperties.RestoreFolderCount | tasks/downloads_organizer.py:198-213 | a folder's turn counts exactly its regular files whose move is accepted |
| RestoreProperties.RestoreFolderCounts | tasks/downloads_organizer.py:196-224 | a folder's turn keeps the inventory and adds one root file per count |
| RestoreTheorems.RestoreLoopFrame | tasks/downloads_organizer.py:196-224 | entries other than the category folders reached are unchanged; new entries are regular files |
| RestoreTheorems.RestoreLoopShape | tasks/downloads_organizer.py:196-224 | each reached category folder, whose entries its enumeration lists once, ends as its turn leaves it |
| RestoreTheorems.RestoreLoopCount | tasks/downloads_organizer.py:194-212 | the count is the total of movable files over the category folders reached |
| RestoreTheorems.RestoreLoopCounts | tasks/downloads_organizer.py:194-224 | the outer loop keeps the inventory and adds one root file per count |
| RestoreTheorems.RestoreRaisesOn | tasks/downloads_organizer.py:196 | a restore raises exactly when the root is missing or not a directory |
| RestoreTheorems.RestoreFrame | tasks/downloads_organizer.py:190-224 | every entry other than a category folder stays as it was, so none is overwritten; new entries are regular files |
| RestoreTheorems.RestoreFolders | tasks/downloads_organizer.py:196-224 | each category folder keeps exactly its subdirectories and refused files; it is removed exactly when that is nothing and the removal is accepted |
| RestoreTheorems.RestoreCounts | tasks/downloads_organizer.py:190-226 | a restore keeps the inventory, and its count is the number of regular files the root gained |
| RestoreTheorems.RestoreCount | tasks/downloads_organizer.py:194-212 | the count is exactly the number of regular files in the root's category folders whose move is accepted |
| RoundTrip.EmptyFoldersSorted | tasks/downloads_organizer.py:76-88 | creating empty category folders keeps the root a sorted form of the original |
| RoundTrip.MoveSorted | tasks/downloads_organizer.py:90-115 | a move attempt keeps the root sorted: an original file is not yet in its folder, so it keeps its own name there |
| RoundTrip.OrganizeSorted | tasks/downloads_organizer.py:117-163 | on a root without category-named entries, organize leaves every original in the root or, under its own name and unchanged, in its category folder |
| RoundTrip.TakeBackSorted | tasks/downloads_organizer.py:201-211 | taking a filed original back keeps the root sorted |
| RoundTrip.RestoreFileSorted | tasks/downloads_organizer.py:198-213 | a restore step keeps the root sorted: the file's own name is free, so it returns under it |
| RoundTrip.RemoveIfEmptySorted | tasks/downloads_organizer.py:218-224 | removing an empty category folder keeps the root sorted |
| RoundTrip.RestoreLoopSorted | tasks/downloads_organizer.py:190-224 | restore keeps the root sorted |
| RoundTrip.RestoreLeavesNoFolder | tasks/downloads_organizer.py:196-224 | restoring a sorted root with nothing refused leaves no entry named after a category |
| RoundTrip.OrganizeThenRestore | tasks/downloads_organizer.py:117-224 | organize, in either mode and with any refused moves, then restore with nothing refused, gives back the original root exactly; the restore counts exactly the files organize took out of the root |
| Scenarios.ClassifyUpperCase | tasks/downloads_organizer.py:66-74 | `photo.JPG` is an Image |
| Scenarios.ClassifyLastSuffix | tasks/downloads_organizer.py:148-149 | `backup.tar.gz` is an Archive, because only the last suffix counts |
| Scenarios.ClassifyKelvinSign | tasks/downloads_organizer.py:68 | a KELVIN SIGN in a suffix lower-cases to `k` |
| Scenarios.ResolveTaken | tasks/downloads_organizer.py:99-106 | a taken `a.txt` becomes `a_1.txt`, then `a_2.txt` |
| Scenarios.ResolveRestored | tasks/downloads_organizer.py:204-209 | a taken `a.txt` is restored as `a_restored_1.txt` |
| Scenarios.ResolveFree | tasks/downloads_organizer.py:99-102 | a free `a.txt` keeps its name |
| Scenarios.BlockedByCategoryFile | tasks/downloads_organizer.py:93-96 | with a regular file named `Images` in the root, moving `x.jpg` fails and counts as failed although the file system refused nothing, and the root is unchanged |
| Scenarios.UnblockedByListingOrder | tasks/downloads_organizer.py:93-96 | with the file `Images` listed before `x.jpg`, a real run moves `Images` into `Others` first and then moves `x.jpg` into a new `Images` folder: moved is 2 and failed is 0 |

## Left out

- **Command line, output and logging.** The command-line interface, `print`
  output and logging are I/O. Only the summary's choice of categories
  (line 174) is modelled.
- **Locating the folder.** `get_downloads_path` and `setup_logging` depend on
  the OS and the home directory. The root is a parameter.
- **`create_category_folders` errors.** A `mkdir` that raises inside
  `create_category_folders` is uncaught in the source. The model assumes
  those calls succeed.
- **Other OS failures.** Failures other than refused moves and refused
  removals are not modelled: permissions on `exists()`, and a file vanishing
  between the snapshot and its move beyond the "not a regular file any more"
  case.
- **Path behaviour.** The model does not cover:
  - symbolic links;
  - case-insensitive file systems (names compare exactly);
  - `shutil.move` into an existing directory.
- **Enumeration during mutation.** A directory enumeration that sees its own
  mutations is not modelled. A folder's entries are listed once, when its
  turn starts.
- **Deep content.** Files deeper than one level below the root are carried
  inside directory values and never inspected.
- **The log file.** `setup_logging` writes `organizer.log` into the
  organized folder itself (lines 55 and 60). Every call, a dry run included,
  appends to it, and the log is a visible regular file that a later run
  organizes into `Others`. The model keeps no log.
- OrganizeTheorems.DryRunChangesNothing: holds of the modelled root only; on
  disk a dry run still appends to `organizer.log` in that root.
- OrganizeTheorems.OrganizeKeepsInventory: conserves the modelled file
  contents only; the bytes the call appends to `organizer.log` are not part
  of the model.
- Organizer.MoveFileKeepsInventory: assumes a failed move changes nothing.
  `shutil.move` (line 109) copies and then unlinks whenever the rename
  fails, not only across devices, so a failure late in that sequence can
  leave a copy at the destination while the original stays.
- RestoreProperties.RestoreFileInventory: makes the same assumption for the
  restore move (line 211).
- OrganizeProperties.OrganizeLoopTallies: proved only when no root entry
  named after a category is a non-directory. Such a regular file makes the
  `mkdir` at line 96 raise while it is still in the root, so a move nobody
  refused can count as failed (`Scenarios.BlockedByCategoryFile`).
- OrganizeProperties.OrganizeLoopPlacement: proved under the same
  condition; without it a file can stay in the root although its move was
  not refused.
- OrganizeTheorems.OrganizeOutcomes: proved under the same condition, for
  the same reason.
- OrganizeTheorems.OrganizeFailures: proved under the same condition, for
  the same reason.
- Names.LowerChar: models `str.lower` only for ASCII capitals and KELVIN
  SIGN, one character to one character. `str.lower` can map one character
  to several: U+0130 becomes `i` followed by U+0307. Every non-ASCII
  character other than KELVIN SIGN lowers to a text that still contains a
  non-ASCII character. No listed suffix contains one, so classification is
  unaffected.
- RoundTrip.OrganizeThenRestore: assumes that no root entry carries a
  category name and that the restore refuses nothing. Without these, restore
  either empties pre-existing folders or leaves files behind, as
  `RestoreFolders` states.
