# QGIS layout export script, in Dafny

A model of the layout loop of the QGIS console script
`IMPRIMIR_TODOS_LAYOUTS_MTL_20251031_1333.py`. The script exports every
print layout of the open project as a PDF and a PNG into an `exports`
folder. For each layout it:

- strips the layout's name and deletes the characters `< > : " / \ | ? *`;
- chooses the two output paths under the setting `modo_arquivos`:
  - `"renomear"` (rename) tries `base`, `base_1`, `base_2`, … until neither
    the `.pdf` nor the `.png` of the stem exists;
  - `"substituir"` (replace) keeps the paths and overwrites;
  - any other value prints a message and leaves the loop;
- asks the exporter for the PDF and then for the PNG, and reports each
  failing result code, the success of both, or an unexpected exception on
  the console.

With no layouts it only prints a warning. Otherwise a header comes before
the loop and a closing banner after it.

The project has three modules:

- `Sanitizer` (`sanitizer.dfy`): the name filter, as pure functions.
- `Naming` (`naming.dfy`):
  - the stems and files of one layout;
  - the rename loop, as a method with a `while` loop, proved against the
    specification function `FirstFree`;
  - the case-insensitive reading of the setting.
- `Export` (`export.dfy`): the loop over the layouts.
  - `ExportAll`, `ExportLoop`, `ExportNext`, `ChoosePaths` and
    `ExportLayout` are methods that follow the script statement by
    statement. They thread the console lines, the folder and the list of
    files written.
  - Each is proved equal to a specification function: `ExportAll` to
    `Run`, `ExportLoop` to `RunLoop`, `ExportNext` to `ExportFirst`,
    `ChoosePaths` to the naming `Chooser(mode)` applied to the layout's
    name and the folder, and `ExportLayout` to `LayoutLines` and
    `LayoutFiles` (through `Step`, the folder gains exactly those files).
  - The lemmas state what those functions promise.

The exporter is an input. For each layout, a `LayoutJob` says what the PDF
call and the PNG call do: return `Success`, return another result code, or
raise. The output folder is the set of `.pdf` and `.png` files it holds
(`File`). Each file the exporter writes joins the set, so later layouts of
the same run see it.

A property one might expect does not hold: sanitizing a sanitized name
again can change it. The strip happens before the deletion, so "? a"
becomes " a", which a second pass turns into "a". `SanitizeTwice` proves
that a second pass only strips, and `SanitizeNotIdempotent` exhibits this
name. The script applies the filter once, so this is no defect of the
script.

## Model

| member | source | states |
|---|---|---|
| Sanitizer.Strip | IMPRIMIR_TODOS_LAYOUTS_MTL_20251031_1333.py:61 | `strip()` never lengthens the name and leaves no whitespace at either end |
| Sanitizer.StripIsBothEnds | IMPRIMIR_TODOS_LAYOUTS_MTL_20251031_1333.py:61 | stripping removes the leading whitespace, then the trailing whitespace; what remains is an untouched middle slice of the name with only whitespace around it |
| Sanitizer.DeleteForbidden | IMPRIMIR_TODOS_LAYOUTS_MTL_20251031_1333.py:63 | the result of the `re.sub` deletion holds none of the characters `< > : " / \ | ? *` |
| Sanitizer.Sanitize | IMPRIMIR_TODOS_LAYOUTS_MTL_20251031_1333.py:61-63 | the stem derived from a layout name holds none of the forbidden characters |
| Sanitizer.DeleteAppend | IMPRIMIR_TODOS_LAYOUTS_MTL_20251031_1333.py:63 | deletion distributes over concatenation, so the characters that are kept keep their order |
| Sanitizer.DeleteOne | IMPRIMIR_TODOS_LAYOUTS_MTL_20251031_1333.py:63 | one character is deleted exactly when it is forbidden and kept otherwise |
| Sanitizer.DeleteCounts | IMPRIMIR_TODOS_LAYOUTS_MTL_20251031_1333.py:63 | every allowed character (spaces and non-ASCII included) occurs as often after deletion as before; every forbidden one no longer occurs |
| Sanitizer.SanitizeKeepsOthers | IMPRIMIR_TODOS_LAYOUTS_MTL_20251031_1333.py:61-63 | a character is in the sanitized name iff it is in the stripped name and not forbidden; allowed characters keep their counts |
| Sanitizer.DeleteClean | IMPRIMIR_TODOS_LAYOUTS_MTL_20251031_1333.py:63 | deleting from a name with no forbidden character changes nothing |
| Sanitizer.StripClean | IMPRIMIR_TODOS_LAYOUTS_MTL_20251031_1333.py:61 | stripping a name with no forbidden character keeps it free of them |
| Sanitizer.SanitizeTwice | IMPRIMIR_TODOS_LAYOUTS_MTL_20251031_1333.py:61-63 | sanitizing a sanitized name again only strips it |
| Sanitizer.SanitizeNotIdempotent | IMPRIMIR_TODOS_LAYOUTS_MTL_20251031_1333.py:61-63 | "? a" is sanitized to " a", and sanitizing that gives "a": whitespace shielded by a deleted character survives at the ends |
| Sanitizer.IsWhitespace | IMPRIMIR_TODOS_LAYOUTS_MTL_20251031_1333.py:61 | the characters Python's `isspace()` accepts, which a bare `strip()` removes; its meaning is stated by `Strip`, `StripIsBothEnds` and `StripClean` |
| Sanitizer.IsForbidden | IMPRIMIR_TODOS_LAYOUTS_MTL_20251031_1333.py:63 | the nine characters of the class the regular expression deletes (listed above); its meaning is stated by `DeleteForbidden`, `DeleteCounts` and `DeleteClean` |
| Naming.Decimal | IMPRIMIR_TODOS_LAYOUTS_MTL_20251031_1333.py:72 | the suffix `f"{count}"` is a non-empty string of decimal digits with no leading zero for a count of 1 or more; with `DecimalRoundTrip` this fixes the string |
| Naming.DecimalRoundTrip | IMPRIMIR_TODOS_LAYOUTS_MTL_20251031_1333.py:72 | reading the suffix's digits back gives the counter |
| Naming.DecimalInjective | IMPRIMIR_TODOS_LAYOUTS_MTL_20251031_1333.py:72 | different counters give different suffixes |
| Naming.DecimalLength | IMPRIMIR_TODOS_LAYOUTS_MTL_20251031_1333.py:72 | a counter of at least 10^e has more than e digits |
| Naming.Stem | IMPRIMIR_TODOS_LAYOUTS_MTL_20251031_1333.py:72 | the stem `f"{base}_{count}"` for a count of 1 or more and `base` for 0; stated by `NumberedStem` |
| Naming.FileName | IMPRIMIR_TODOS_LAYOUTS_MTL_20251031_1333.py:64-65 | the `.pdf`/`.png` path of a stem; stated by `FileNameInjective` |
| Naming.FileNameInjective | IMPRIMIR_TODOS_LAYOUTS_MTL_20251031_1333.py:64-65 | the names `<stem>.pdf` and `<stem>.png` determine the file: equal names mean equal kind and equal stem |
| Naming.NumberedStem | IMPRIMIR_TODOS_LAYOUTS_MTL_20251031_1333.py:69-72 | a numbered stem is the original base, one `_`, and digits only (no compounding into `base_1_2`); distinct steps give distinct stems |
| Naming.FarStemIsFree | IMPRIMIR_TODOS_LAYOUTS_MTL_20251031_1333.py:71-75 | from step 10^(longest stem in the folder) on, the stem is free, so the rename loop ends on every finite folder |
| Naming.FirstFreeFrom | IMPRIMIR_TODOS_LAYOUTS_MTL_20251031_1333.py:69-75 | the first count from k on whose stem is free; stated by `FirstFreeFromIsFree` and `FirstFreeFromIsLeast` |
| Naming.FirstFree | IMPRIMIR_TODOS_LAYOUTS_MTL_20251031_1333.py:69-75 | the count the rename loop settles on, 0 when the sanitized name is already free; stated by `FirstFreeIsLeast`; `RenameUntilFree` returns its stem |
| Naming.FirstFreeFromIsFree | IMPRIMIR_TODOS_LAYOUTS_MTL_20251031_1333.py:71-75 | searching from step k ends at a step of at least k whose stem has neither file in the folder |
| Naming.FirstFreeFromIsLeast | IMPRIMIR_TODOS_LAYOUTS_MTL_20251031_1333.py:71-75 | every step the search passes over has a taken stem |
| Naming.FirstFreeIsLeast | IMPRIMIR_TODOS_LAYOUTS_MTL_20251031_1333.py:69-75 | the chosen step is the least one whose `.pdf` and `.png` are both absent: step 0 (`base` itself) when both are free, otherwise the least k ≥ 1 |
| Naming.RenameUntilFree | IMPRIMIR_TODOS_LAYOUTS_MTL_20251031_1333.py:69-75 | the `while` loop ends on the stem of that least free step; the PDF and PNG paths share that stem and neither is in the folder |
| Naming.RenameSkipsHalfTakenStems | IMPRIMIR_TODOS_LAYOUTS_MTL_20251031_1333.py:71-75 | with `base.pdf`, `base_1.pdf` and `base_1.png` present, the stem is `base_2`, although `base.png` is free |
| Naming.Lower | IMPRIMIR_TODOS_LAYOUTS_MTL_20251031_1333.py:68 | `lower()` keeps the length and lowers each letter A-Z in place |
| Naming.ParseMode | IMPRIMIR_TODOS_LAYOUTS_MTL_20251031_1333.py:68-78 | `modo_arquivos.lower()` compared with "renomear" and "substituir", anything else invalid; stated by `ParseModeIgnoresCase` |
| Naming.ParseModeIgnoresCase | IMPRIMIR_TODOS_LAYOUTS_MTL_20251031_1333.py:68-81 | the mode is rename iff the setting spells "renomear" in any case, replace iff it spells "substituir", and invalid otherwise |
| Export.LayoutLinesSay | IMPRIMIR_TODOS_LAYOUTS_MTL_20251031_1333.py:84-104 | one layout prints one or two lines, each an error or success line about its own stem and no other kind. The success line appears iff both calls return `Success`. Each non-`Success` code gets its own PDF or PNG error line (the PNG is asked for even after a failed PDF), and when there are two lines the PDF error line comes first. An exception gives one unexpected-error line |
| Export.LayoutFilesAre | IMPRIMIR_TODOS_LAYOUTS_MTL_20251031_1333.py:89-95 | only the layout's own `.pdf` and `.png` can be written, each at most once, each exactly when its call returned `Success` |
| Export.LayoutLines | IMPRIMIR_TODOS_LAYOUTS_MTL_20251031_1333.py:84-104 | the lines one layout prints; stated by `LayoutLinesSay` and `LayoutLinesCount`, computed by `ExportLayout` |
| Export.LayoutFiles | IMPRIMIR_TODOS_LAYOUTS_MTL_20251031_1333.py:89-95 | the files one layout writes; stated by `LayoutFilesAre`, computed by `ExportLayout` |
| Export.Step | IMPRIMIR_TODOS_LAYOUTS_MTL_20251031_1333.py:84-104 | one layout appended to the report; stated by `StepFolder`, `StepCounts`, `StepDistinct`, `StepNew` and `StepFixed` |
| Export.ChosenStem | IMPRIMIR_TODOS_LAYOUTS_MTL_20251031_1333.py:67-78 | the stem a valid mode picks: the first free numbered stem in rename mode, the sanitized name in replace mode; stated by `RenamePicksFreeStems` and `ReplaceKeepsSanitizedNames`, computed by `ChoosePaths` |
| Export.Chooser | IMPRIMIR_TODOS_LAYOUTS_MTL_20251031_1333.py:67-78 | the layout's name is sanitized, then `ChosenStem` names it in the current folder; stated by `RenamePicksFreeStems` and `ReplaceKeepsSanitizedNames` |
| Export.ExportFirst | IMPRIMIR_TODOS_LAYOUTS_MTL_20251031_1333.py:60-104 | the report after the first n layouts; stated by `FolderIsExistingPlusWritten`, `EveryLayoutReported` and `FreeStemsNeverOverwrite`, computed by `ExportNext` |
| Export.RunLoop | IMPRIMIR_TODOS_LAYOUTS_MTL_20251031_1333.py:58-106 | header, the loop with its `break` and the closing banner; computed by `ExportLoop`, stated by `InvalidModeStopsAtFirstLayout` |
| Export.Run | IMPRIMIR_TODOS_LAYOUTS_MTL_20251031_1333.py:55-106 | the whole run; computed by `ExportAll`, stated by `EmptyProjectOnlyWarns`, `InvalidModeStopsAtFirstLayout`, `RunRenameNeverOverwrites` and `RunReplaceIgnoresFolder` |
| Export.ExportLayout | IMPRIMIR_TODOS_LAYOUTS_MTL_20251031_1333.py:84-104 | the `try` block, statement by statement, prints the lines and writes the files above, and the folder gains exactly those files |
| Export.ChoosePaths | IMPRIMIR_TODOS_LAYOUTS_MTL_20251031_1333.py:61-78 | under a valid mode the paths are the sanitized name, renumbered in rename mode; both paths share the stem |
| Export.ExportNext | IMPRIMIR_TODOS_LAYOUTS_MTL_20251031_1333.py:60-104 | one pass of the `for` loop extends the report of the first i layouts to the first i + 1 |
| Export.ExportLoop | IMPRIMIR_TODOS_LAYOUTS_MTL_20251031_1333.py:58-106 | header, loop with `break` on an invalid mode, and closing banner compute `RunLoop` |
| Export.ExportAll | IMPRIMIR_TODOS_LAYOUTS_MTL_20251031_1333.py:55-106 | the whole run computes `Run`: the warning alone for an empty project, the loop otherwise |
| Export.EmptyProjectOnlyWarns | IMPRIMIR_TODOS_LAYOUTS_MTL_20251031_1333.py:55-56 | with no layouts only the warning is printed, the mode is never looked at and the folder is unchanged |
| Export.InvalidModeStopsAtFirstLayout | IMPRIMIR_TODOS_LAYOUTS_MTL_20251031_1333.py:79-106 | an invalid mode prints the header, the invalid-mode line and the closing banner, and calls no exporter and writes nothing |
| Export.FolderIsExistingPlusWritten | IMPRIMIR_TODOS_LAYOUTS_MTL_20251031_1333.py:60-104 | after any number of layouts the folder is the folder before the loop plus the files written |
| Export.StepFolder | IMPRIMIR_TODOS_LAYOUTS_MTL_20251031_1333.py:84-104 | one layout keeps that relation between the folder and the files written |
| Export.RenamePicksFreeStems | IMPRIMIR_TODOS_LAYOUTS_MTL_20251031_1333.py:68-75 | in rename mode every layout gets a stem with neither file in the folder as the earlier layouts left it |
| Export.FreeStemsNeverOverwrite | IMPRIMIR_TODOS_LAYOUTS_MTL_20251031_1333.py:60-104 | when each stem is picked free, no file is written twice and no file present before the loop is overwritten |
| Export.FreeStemsWriteDistinct | IMPRIMIR_TODOS_LAYOUTS_MTL_20251031_1333.py:60-104 | when each stem is picked free, the files written by the first n layouts are pairwise distinct |
| Export.FreeStemsWriteNew | IMPRIMIR_TODOS_LAYOUTS_MTL_20251031_1333.py:60-104 | when each stem is picked free, no file written by the first n layouts was in the folder before the loop, and the files in the folder before the loop are still in it |
| Export.StepDistinct | IMPRIMIR_TODOS_LAYOUTS_MTL_20251031_1333.py:84-104 | a layout exported under a free stem adds files different from each other and from every file written before |
| Export.StepNew | IMPRIMIR_TODOS_LAYOUTS_MTL_20251031_1333.py:84-104 | a layout exported under a free stem adds no file that was in the folder before the loop |
| Export.WrittenStemsRelated | IMPRIMIR_TODOS_LAYOUTS_MTL_20251031_1333.py:60-104 | when every stem the naming picks is related to the layout's name in some way, every file written carries a stem related in that way to one of the layouts' names |
| Export.RunRenameNeverOverwrites | IMPRIMIR_TODOS_LAYOUTS_MTL_20251031_1333.py:55-106 | a whole run with a setting that reads as rename writes no file twice and overwrites none that was in the folder. The folder gains exactly the files written, and each of them is named `base` or `base_k` after the sanitized name `base` of one of the layouts |
| Export.RenameNeverOverwrites | IMPRIMIR_TODOS_LAYOUTS_MTL_20251031_1333.py:60-104 | in rename mode a run never overwrites a file and never writes one twice, even for two layouts with the same name |
| Export.ReplaceKeepsSanitizedNames | IMPRIMIR_TODOS_LAYOUTS_MTL_20251031_1333.py:76-78 | in replace mode a layout's stem is its sanitized name, whatever the folder holds |
| Export.StepFixed | IMPRIMIR_TODOS_LAYOUTS_MTL_20251031_1333.py:84-104 | when naming ignores the folder, one layout's lines and files are those of its folder-independent stem |
| Export.FixedNamesIgnoreFolder | IMPRIMIR_TODOS_LAYOUTS_MTL_20251031_1333.py:60-104 | when naming ignores the folder, the lines printed and the files written do not depend on the folder |
| Export.FixedLinesIgnoreFolder | IMPRIMIR_TODOS_LAYOUTS_MTL_20251031_1333.py:60-104 | when naming ignores the folder, the lines printed by the first n layouts do not depend on the folder |
| Export.FixedFilesIgnoreFolder | IMPRIMIR_TODOS_LAYOUTS_MTL_20251031_1333.py:60-104 | when naming ignores the folder, the files written by the first n layouts do not depend on the folder |
| Export.FixedFilesNamed | IMPRIMIR_TODOS_LAYOUTS_MTL_20251031_1333.py:64-65 | each of those files carries the stem of one of the layouts |
| Export.ReplaceIgnoresFolder | IMPRIMIR_TODOS_LAYOUTS_MTL_20251031_1333.py:76-78 | in replace mode two runs over different folders, with the exporter returning the same results in both runs, print the same lines and write the same files, each named by a layout's sanitized name without a suffix |
| Export.RunReplaceIgnoresFolder | IMPRIMIR_TODOS_LAYOUTS_MTL_20251031_1333.py:55-106 | a whole run with a setting that reads as replace, with the exporter returning the same results whatever the folder holds, prints the same lines and writes the same files; each file carries a layout's sanitized name |
| Export.ReplaceRerunKeepsFolder | IMPRIMIR_TODOS_LAYOUTS_MTL_20251031_1333.py:76-78 | running again in replace mode over the first run's output, with the exporter returning the same results in both runs, leaves the folder as the first run left it: no new file appears, and the files that are written again are overwritten in place |
| Export.LayoutLinesCount | IMPRIMIR_TODOS_LAYOUTS_MTL_20251031_1333.py:100-104 | one layout prints one success line iff both exports succeeded, and one unexpected-error line iff a call raised |
| Export.StepCounts | IMPRIMIR_TODOS_LAYOUTS_MTL_20251031_1333.py:84-104 | one more layout adds its own success and unexpected-error lines to the counts |
| Export.EveryLayoutReported | IMPRIMIR_TODOS_LAYOUTS_MTL_20251031_1333.py:60-104 | an exception does not stop the loop: there are as many success lines as layouts whose exports both succeeded, and as many unexpected-error lines as layouts whose export raised |

## Left out

- The QGIS API (`QgsProject`, the layout manager, `QgsLayoutExporter` and its export settings) is foreign code. The layouts and what each exporter call does are an input (`LayoutJob`), and result codes other than `Success` are arbitrary integers.
- An exception raised while constructing the exporter prints the same line as one raised by the PDF call, so it is folded into the PDF call.
- Filesystem I/O is left out: `os.makedirs`, `os.path.exists`, `os.path.join` and the folder path. The folder is the set of `.pdf` and `.png` files it holds. A file whose name does not end in `.pdf` or `.png` never equals a path the script builds, so it is not represented. `FileNameInjective` shows that names and `File` values match one to one.
- Case-insensitive file systems and path-length limits are not modelled. Two stems that differ only in case are different files here.
- A call that returns a code other than `Success` or raises is taken to write no file. What a failed export leaves on disk is not visible.
- `Raises` stands for an exception that is an `Exception` subclass, which the `except` clause catches. Any other exception, such as `KeyboardInterrupt` or `SystemExit`, raised by an exporter call leaves the loop and ends the script. The later layouts are then skipped and the closing banner is not printed. The model does not represent such exceptions, so `EveryLayoutReported` and the closing banner in `RunLoop` assume they do not happen.
- Export.RenameNeverOverwrites: assumes a call that returns `Success` writes exactly the one path it was given and no other file; the same holds for `FreeStemsNeverOverwrite` and `RunRenameNeverOverwrites`. The exporter is foreign code. If it writes further files, such as per-page images `<stem>_2.png` for a multi-page layout, those files are outside the model, and they can collide with the stems of other layouts even in rename mode.
- The console text, emoji and the folder path in the header are reduced to `Outcome` tags that keep the stem, the result code, the exception message, the layout count and the setting.
- Naming.Lower: lowers only A-Z, not Python's full Unicode `lower()`. The comparison with "renomear" and "substituir" comes out the same: no other character lowers to a single one of their letters, and the invalid-mode line prints the setting unlowered.
- Export.ExportAll: reads the setting once, while the script lowers it again on every pass of the loop; the value is the same each time.
- The setting `modo_arquivos` is the input `setting` of `Run` and `ExportAll`. Its default value "renomear" is not modelled, and neither is `output_folder`.
- The imports, both docstrings and the commented-out absolute path are outside the loop and not modelled.
